# HyperQueue stream-server control loop and dashboard data layer, in Dafny

This project models two sequential parts of HyperQueue.

**The stream server's control loop.** The server thread receives control commands:
- `RegisterStream(job, path)`;
- `UnregisterStream(job)`;
- `AddConnection(connection)`.

It folds them, in the order received, over a registry that holds a map of job writer queues and a map of registered output paths. The revision in `src/stream/server.rs` is modelled, and so is the earlier draft in `src/streamer/server.rs`. The source asserts that a job is never registered twice. The model turns that assertion into an explicit `DoubleRegistration` failure, which ends the loop, so a second registration yields an error instead of a crashed server thread.

**The dashboard's data layer and three of its charts.**
- `DashboardData::update_data` sorts a polled batch of monitoring events by time. It moves the `after_id` polling cursor to the largest id in the batch. It hands the sorted batch to the timelines.
- The job timeline (`job_timeline.rs`) and its earlier variant (`task_timeline.rs`) fold job and task events into a per-job map of started tasks. Each task has an end time and an end state.
- The allocation chart (`alloc_timeline_chart.rs`) samples a queue's allocations once per second and classifies each one as queued, running or finished. It groups the samples per allocation.
- The older allocation chart (`timeline_chart.rs`) keeps only the latest sample per allocation.
- The utilization chart (`chart.rs`) samples its data fetchers once per second and groups the points by key.

## Modelling conventions

- **Time and integers.**
  - A `SystemTime` or a `DateTime` is an `int` count of nanoseconds. A `Duration` is a `nat` count of nanoseconds.
  - Event ids are `u32`, modelled as the `U32` subset type.
  - `SystemTime::now()` is a parameter (`now`). Overflow of time arithmetic (the source would panic) is not modelled.
- **Opaque collaborators.**
  - The allocation timeline's query `query_allocations_info_at(descriptor, time)` is a function parameter. So is a chart's data fetcher.
  - The worker and allocation timelines inside `DashboardData` are represented by the events handed to them.
- **HashMap iteration order.** A Rust `HashMap` iterates in an unspecified order, so the model does not fix one:
  - `iter_mut().find(..)` picks *some* job that lists the task (`Events.Pick`);
  - iterating a returned allocation map yields *some* enumeration of it (`Common.Enumerate`).
  - The functions that depend on such a choice are ghost functions, and their contracts hold whatever the choice.
  - The lemmas that relate the two timeline revisions are different: both revisions use the one choice `Events.Pick`, so they assume that the two programs find the same job for a task (see "Left out").
- **Unstable sort.** `sort_unstable_by_key` may return any time-sorted permutation of the batch. `UpdateData` promises only that it used some sorted permutation.
- **Shared job entries.** Both timeline revisions use one job entry, `JobTimeline.DashboardJobInfo<T>`, which is generic over the record kept per task. They also share `JobTimeline.CreateJob`, `JobTimeline.CompleteJob` and `JobTimeline.Owners`, because the `JobCreated` and `JobCompleted` arms of the two files are the same code.
- **Floats and colours.** Chart coordinates (`f64`) are opaque reals and colours are opaque numbers. Nothing about them is computed.

## Model

| member | source | states |
|---|---|---|
| StreamServer.NewState | src/stream/server.rs:21-28 | a new server state has no writer queues and no registrations |
| StreamServer.Step | src/stream/server.rs:81-95 | one command fails exactly when it registers an already registered job; a fresh registration adds exactly that job with that path; unregistering removes the job and is a no-op for an unknown job; other jobs keep their paths; no command changes the writer queues; `AddConnection` leaves the state as it was |
| StreamServer.Run | src/stream/server.rs:79-95 | the loop over the received commands never touches the writer queues |
| StreamServer.RunFirstCommandFirst | src/stream/server.rs:81-82 | the loop is a left fold in receipt order: the first command is processed first and a failure stops the loop |
| StreamServer.RunRegistrations | src/stream/server.rs:81-95 | after a successful run a job is registered, with a given path, exactly when the last command naming it registered it with that path; the writer queues are untouched |
| StreamServer.RunFailsIffDoubleRegistration | src/stream/server.rs:83-85 | a run fails exactly when some command registers a job that the commands before it left registered |
| StreamServer.RegisterThenUnregisterRestores | src/stream/server.rs:83-90 | registering an unregistered job and then unregistering it gives back the original state |
| StreamServer.UnregisterIdempotent | src/stream/server.rs:87-90 | unregistering twice is the same as unregistering once |
| StreamServer.FreshRegistrationsComeFromCommands | src/stream/server.rs:79-95 | starting from a new state, every registered path was registered by a command naming that job and that path |
| StreamerDraft.Initial | src/streamer/server.rs:21 | the draft's registration table starts empty |
| StreamerDraft.Step | src/streamer/server.rs:24-36 | a registration fails exactly when the stream is already present; otherwise it adds exactly that stream and path and keeps the others; unregistering removes the stream and keeps the others; `AddConnection` does nothing |
| StreamerDraft.Run | src/streamer/server.rs:20-37 | after the draft's loop every registered stream was registered at the start or by some command, and a failure names a stream that some command registers |
| StreamerDraft.UnregisterIdempotent | src/streamer/server.rs:29-31 | unregistering a stream twice is the same as unregistering it once |
| StreamerDraft.DraftAgreesWithServer | src/streamer/server.rs:20-37 | the draft and the later revision fail on the same command sequences with the same error, and leave the same registrations table |
| Events.Pick | crates/hyperqueue/src/dashboard/data/job_timeline.rs:74-77 | the job found for a task is one of the jobs that list it |
| JobTimeline.SetEndTimeAndStatus | crates/hyperqueue/src/dashboard/data/job_timeline.rs:29-32 | ending a task sets both its end time and its end state and keeps its worker and start time |
| JobTimeline.GetTaskStateAt | crates/hyperqueue/src/dashboard/data/job_timeline.rs:35-43 | a task is running at a time not before its start if it has no end time or ends strictly later; otherwise it is in its recorded end state |
| JobTimeline.RunningBeforeEndNeedsNoState | crates/hyperqueue/src/dashboard/data/job_timeline.rs:38-40 | a task whose end time lies after the query time is running even if no end state is recorded |
| JobTimeline.TaskStateStable | crates/hyperqueue/src/dashboard/data/job_timeline.rs:35-43 | once a consistent task has ended it stays in its end state at later times, and a task running at some time was running at every earlier time since its start |
| JobTimeline.CreateJob | crates/hyperqueue/src/dashboard/data/job_timeline.rs:56-64 | a created job maps to its description with no tasks and no completion date, replacing any earlier entry; other jobs are unchanged (the variant's arm, task_timeline.rs lines 45-54, is the same) |
| JobTimeline.CompleteJob | crates/hyperqueue/src/dashboard/data/job_timeline.rs:67-71 | a known job gets the completion date; an unknown job leaves the timeline unchanged (likewise task_timeline.rs lines 56-60) |
| JobTimeline.StartTask | crates/hyperqueue/src/dashboard/data/job_timeline.rs:73-88 | a started task is recorded (worker, start time, no end) under some job listing it, with every other job unchanged; a task no job lists is ignored |
| JobTimeline.UpdateTaskStatus | crates/hyperqueue/src/dashboard/data/job_timeline.rs:123-137 | a task no job lists changes nothing; otherwise exactly one job that lists the task is found, every other job is unchanged, and the found job ends the task at the event time with the given state if it has recorded the task's start and is unchanged if not |
| JobTimeline.ApplyEvent | crates/hyperqueue/src/dashboard/data/job_timeline.rs:54-107 | worker and allocation events leave the timeline unchanged; no event removes a job, and only a job creation adds one |
| JobTimeline.CreateJobWellFormed | crates/hyperqueue/src/dashboard/data/job_timeline.rs:56-64 | job creation keeps the timeline well formed |
| JobTimeline.CompleteJobWellFormed | crates/hyperqueue/src/dashboard/data/job_timeline.rs:67-71 | job completion keeps the timeline well formed |
| JobTimeline.StartTaskWellFormed | crates/hyperqueue/src/dashboard/data/job_timeline.rs:73-88 | a task start keeps the timeline well formed |
| JobTimeline.UpdateTaskStatusWellFormed | crates/hyperqueue/src/dashboard/data/job_timeline.rs:123-137 | a finish or failure keeps the timeline well formed |
| JobTimeline.ApplyEventWellFormed | crates/hyperqueue/src/dashboard/data/job_timeline.rs:29-32 | every event keeps the invariant: each recorded task is listed by its job, has an end time exactly when it has an end state, and never ends as running |
| JobTimeline.HandleNewEvents | crates/hyperqueue/src/dashboard/data/job_timeline.rs:53-109 | handling a batch never drops a job, and every job it adds comes from a creation event of the batch |
| JobTimeline.UpdateTaskStatusTimes | crates/hyperqueue/src/dashboard/data/job_timeline.rs:123-137 | ending a task at a time not before the latest recorded time keeps every recorded time at or before the event time |
| JobTimeline.HandleNewEventsWellFormed | crates/hyperqueue/src/dashboard/data/job_timeline.rs:53-109 | a timeline built from any events is well formed, so `get_task_state_at` never unwraps a missing end state |
| JobTimeline.HandleNewEventsTimes | crates/hyperqueue/src/dashboard/data/job_timeline.rs:52-54 | events fed in time order keep every recorded time at or before the latest event, and no task ends before it started |
| JobTimeline.StateAtLatestEvent | crates/hyperqueue/src/dashboard/data/job_timeline.rs:35-43 | in such a timeline, asking for a task's state at the latest event time is allowed, and the answer is running exactly when no end was recorded |
| JobTimeline.HandleNewEventsAppend | crates/hyperqueue/src/dashboard/data/job_timeline.rs:53-54 | handling two batches one after the other equals handling their concatenation |
| JobTimeline.NonJobEventsIgnored | crates/hyperqueue/src/dashboard/data/job_timeline.rs:106 | a batch of worker and allocation events leaves the timeline unchanged |
| JobTimeline.GetWorkerTaskHistory | crates/hyperqueue/src/dashboard/data/job_timeline.rs:111-120 | the history holds exactly the recorded tasks of any job that run on the worker and started no later than the given time |
| JobTimeline.HistoryGrowsWithTime | crates/hyperqueue/src/dashboard/data/job_timeline.rs:111-120 | a later query time never loses a task from a worker's history |
| JobTimeline.StartedTaskInHistory | crates/hyperqueue/src/dashboard/data/job_timeline.rs:73-120 | a task started on a worker appears in that worker's history from its start time on |
| TaskTimeline.SetEndTimeAndStatus | crates/hyperqueue/src/dashboard/data/task_timeline.rs:29-32 | ending a task sets both its end time and its current state |
| TaskTimeline.StartTask | crates/hyperqueue/src/dashboard/data/task_timeline.rs:62-76 | a started task is recorded as running with no end time under some job listing it; without such a job nothing changes |
| TaskTimeline.UpdateTaskStatus | crates/hyperqueue/src/dashboard/data/task_timeline.rs:111-125 | a task no job lists changes nothing; otherwise exactly one job that lists the task is found, every other job is unchanged, and the found job sets the task's end time and current state if it has recorded the task's start and is unchanged if not |
| TaskTimeline.ApplyEvent | crates/hyperqueue/src/dashboard/data/task_timeline.rs:94 | other event kinds are ignored |
| TaskTimeline.StartTaskWellFormed | crates/hyperqueue/src/dashboard/data/task_timeline.rs:62-76 | a task start keeps each task listed by its job and running exactly when no end time is recorded |
| TaskTimeline.UpdateTaskStatusWellFormed | crates/hyperqueue/src/dashboard/data/task_timeline.rs:111-125 | a finish or failure keeps that invariant |
| TaskTimeline.ApplyEventWellFormed | crates/hyperqueue/src/dashboard/data/task_timeline.rs:43-95 | every event keeps each task listed by its job, and running exactly when no end time is recorded |
| TaskTimeline.HandleNewEvents | crates/hyperqueue/src/dashboard/data/task_timeline.rs:42-97 | handling a batch never drops a job, and every job it adds comes from a creation event of the batch |
| TaskTimeline.HandleNewEventsWellFormed | crates/hyperqueue/src/dashboard/data/task_timeline.rs:42-97 | any batch of events keeps that invariant |
| TaskTimeline.GetWorkerTaskHistory | crates/hyperqueue/src/dashboard/data/task_timeline.rs:99-108 | the history holds exactly the tasks run on the worker that started no later than the given time |
| TaskTimeline.ProjectOwners | crates/hyperqueue/src/dashboard/data/task_timeline.rs:63-65 | viewing a job timeline as the variant does not change which jobs list a task |
| TaskTimeline.ProjectApplyEvent | crates/hyperqueue/src/dashboard/data/task_timeline.rs:43-95 | one event has the same effect in both revisions, seen through the view that treats a missing end state as running |
| TaskTimeline.ProjectStartTask | crates/hyperqueue/src/dashboard/data/task_timeline.rs:62-76 | a task start has the same effect in both revisions |
| TaskTimeline.ProjectUpdateTaskStatus | crates/hyperqueue/src/dashboard/data/task_timeline.rs:111-125 | a finish or failure has the same effect in both revisions |
| TaskTimeline.VariantsAgree | crates/hyperqueue/src/dashboard/data/task_timeline.rs:42-97 | handling a batch in the job timeline and then viewing it as the variant equals handling the batch in the variant |
| TaskTimeline.HistoryAgrees | crates/hyperqueue/src/dashboard/data/task_timeline.rs:99-108 | the variant's worker history is the job timeline's history seen through that view |
| DashboardData.Default | crates/hyperqueue/src/dashboard/data/mod.rs:22-32 | nothing fetched yet: no cursor, empty timelines |
| DashboardData.LastFetchedId | crates/hyperqueue/src/dashboard/data/mod.rs:35-37 | the cursor handed to the next poll is the stored one, unchanged |
| DashboardData.NextPollCursor | crates/hyperqueue/src/dashboard/data/mod.rs:35-47 | the next poll's cursor is the largest id of the batch just handled, or the previous cursor when that batch was empty |
| DashboardData.InsertByTime | crates/hyperqueue/src/dashboard/data/mod.rs:40 | inserting into a time-sorted batch keeps it sorted and adds exactly that event |
| DashboardData.SortByTime | crates/hyperqueue/src/dashboard/data/mod.rs:40 | the result is sorted by time and a permutation of the batch |
| DashboardData.MaxId | crates/hyperqueue/src/dashboard/data/mod.rs:43-46 | the largest id of a non-empty batch is an id of the batch and no id exceeds it |
| DashboardData.PermutationKeepsMaxId | crates/hyperqueue/src/dashboard/data/mod.rs:40-46 | sorting a batch does not change its largest id |
| DashboardData.UpdateData | crates/hyperqueue/src/dashboard/data/mod.rs:39-53 | an empty batch keeps the cursor, a non-empty one moves it to the batch's largest id; the job timeline and the other timelines receive one and the same time-sorted permutation of the batch |
| DashboardData.CursorIgnoresPrevious | crates/hyperqueue/src/dashboard/data/mod.rs:43-47 | for a non-empty batch the new cursor depends on the batch alone |
| DashboardData.CursorCanMoveBack | crates/hyperqueue/src/dashboard/data/mod.rs:43-47 | a batch with only smaller ids moves the cursor back (cursor 10, batch id 3 gives cursor 3) |
| DashboardData.CursorAdvances | crates/hyperqueue/src/dashboard/data/mod.rs:43-47 | a batch of ids newer than the cursor strictly advances it, and it covers every id of the batch |
| DashboardData.UpdateDataWellFormed | crates/hyperqueue/src/dashboard/data/mod.rs:49-52 | an update keeps the job timeline well formed |
| DashboardData.UpdateDataKeepsTimesInOrder | crates/hyperqueue/src/dashboard/data/mod.rs:40-51 | since the batch is sorted first, a batch of events no older than the timeline keeps every recorded time at or before the newest event, whatever order the batch arrived in |
| AllocTimelineChart.DefaultChartData | crates/hyperqueue/src/dashboard/ui/screens/auto_allocator/alloc_timeline_chart.rs:153-160 | the default chart has no records and a ten-minute window ending now |
| AllocTimelineChart.GetAllocState | crates/hyperqueue/src/dashboard/ui/screens/auto_allocator/alloc_timeline_chart.rs:138-151 | finished exactly when the finish time is strictly before the query time, even without a start time; running exactly when it started strictly before and has not finished; queued otherwise |
| AllocTimelineChart.AllocStateMonotone | crates/hyperqueue/src/dashboard/ui/screens/auto_allocator/alloc_timeline_chart.rs:138-151 | at a later query time an allocation is never in an earlier state |
| AllocTimelineChart.QueryTimes | crates/hyperqueue/src/dashboard/ui/screens/auto_allocator/alloc_timeline_chart.rs:78-83 | the time advances one second before each query: the queries run from one second after the window start, one second apart, and the last one lies after `max_time` by at most one second |
| AllocTimelineChart.QueryTimesIncreasing | crates/hyperqueue/src/dashboard/ui/screens/auto_allocator/alloc_timeline_chart.rs:81-83 | the query times strictly increase |
| AllocTimelineChart.SightingAt | crates/hyperqueue/src/dashboard/ui/screens/auto_allocator/alloc_timeline_chart.rs:83-95 | one query yields at most one point per allocation |
| AllocTimelineChart.BatchValues | crates/hyperqueue/src/dashboard/ui/screens/auto_allocator/alloc_timeline_chart.rs:84-95 | whatever order the allocation map is iterated in, an allocation's points from one query are its sighting at that time |
| AllocTimelineChart.Batch | crates/hyperqueue/src/dashboard/ui/screens/auto_allocator/alloc_timeline_chart.rs:83-95 | a query yields nothing when the queue is unknown, and otherwise one point per reported allocation, each stamped with the query time |
| AllocTimelineChart.CollectPoints | crates/hyperqueue/src/dashboard/ui/screens/auto_allocator/alloc_timeline_chart.rs:79-98 | every collected point is stamped with one of the query times |
| AllocTimelineChart.CollectPointsSightings | crates/hyperqueue/src/dashboard/ui/screens/auto_allocator/alloc_timeline_chart.rs:79-98 | the collected points of an allocation are its sightings in query order |
| AllocTimelineChart.Update | crates/hyperqueue/src/dashboard/ui/screens/auto_allocator/alloc_timeline_chart.rs:74-107 | `max_time` becomes now; an allocation has a row exactly when some query reports it, and the row is exactly its sightings in query order |
| AllocTimelineChart.SightingsInOrder | crates/hyperqueue/src/dashboard/ui/screens/auto_allocator/alloc_timeline_chart.rs:81-106 | every point of a row was sampled at a query time that reports the allocation, carries its state at that time, and the row is in strictly increasing time order |
| AllocTimelineChart.PrependChronological | crates/hyperqueue/src/dashboard/ui/screens/auto_allocator/alloc_timeline_chart.rs:100-106 | a point earlier than all of an ordered row keeps the row ordered when put in front |
| AllocTimelineChart.RecordsChronological | crates/hyperqueue/src/dashboard/ui/screens/auto_allocator/alloc_timeline_chart.rs:100-106 | each row of an updated chart is in strictly increasing time order |
| AllocTimelineChart.UpdateForgetsOldRecords | crates/hyperqueue/src/dashboard/ui/screens/auto_allocator/alloc_timeline_chart.rs:75 | the records are cleared first: two charts with the same window show the same rows after an update |
| TimelineChart.Default | crates/hyperqueue/src/dashboard/ui/widgets/timeline_chart/timeline_chart.rs:112-128 | the default chart has no records and a five-minute window ending now |
| TimelineChart.Classify | crates/hyperqueue/src/dashboard/ui/widgets/timeline_chart/timeline_chart.rs:79-85 | queued exactly when there is no start time; running exactly when started and not finished; finished exactly when both times are present |
| TimelineChart.ClassifyAgreesWithGetAllocState | crates/hyperqueue/src/dashboard/ui/widgets/timeline_chart/timeline_chart.rs:78-85 | when all recorded times precede the query time and an allocation did not finish without starting, both charts classify it alike |
| TimelineChart.ClassifyDiffersFromGetAllocState | crates/hyperqueue/src/dashboard/ui/widgets/timeline_chart/timeline_chart.rs:78-85 | the classification ignores the query time: an allocation starting at the query time is running here and queued in the newer chart, and one finished without a start is queued here and finished there |
| TimelineChart.ExtendAll | crates/hyperqueue/src/dashboard/ui/widgets/timeline_chart/timeline_chart.rs:72-97 | an allocation once recorded stays recorded |
| TimelineChart.ExtendAllLatest | crates/hyperqueue/src/dashboard/ui/widgets/timeline_chart/timeline_chart.rs:95 | after the extensions an allocation holds its latest sighting, or its old point when it was not sighted |
| TimelineChart.LatestSightingStep | crates/hyperqueue/src/dashboard/ui/widgets/timeline_chart/timeline_chart.rs:72-97 | the latest sighting over the query times is the one over the later times, or else the first query's |
| TimelineChart.Update | crates/hyperqueue/src/dashboard/ui/widgets/timeline_chart/timeline_chart.rs:68-98 | it queries the same times as the newer chart; each sighted allocation holds its latest point, the others keep their old point, and `max_time` does not move |
| TimelineChart.UpdateIdempotent | crates/hyperqueue/src/dashboard/ui/widgets/timeline_chart/timeline_chart.rs:68-98 | because `max_time` never moves, updating twice against the same data is the same as updating once |
| TimelineChart.UpdateNeverForgets | crates/hyperqueue/src/dashboard/ui/widgets/timeline_chart/timeline_chart.rs:95 | records are not cleared between updates |
| UtilChart.Default | crates/hyperqueue/src/dashboard/ui/widgets/chart.rs:120-129 | no fetchers, no datasets, a five-minute window ending now |
| UtilChart.AddDataFetcher | crates/hyperqueue/src/dashboard/ui/widgets/chart.rs:42-44 | exactly one fetcher is appended after the existing ones, and nothing else changes |
| UtilChart.SampleTimes | crates/hyperqueue/src/dashboard/ui/widgets/chart.rs:50-56 | the samples are the window start plus k seconds, for every k whose time does not exceed the end time |
| UtilChart.SampleCount | crates/hyperqueue/src/dashboard/ui/widgets/chart.rs:50-56 | a window of n whole seconds is sampled n + 1 times |
| UtilChart.FetchAt | crates/hyperqueue/src/dashboard/ui/widgets/chart.rs:60-66 | the fetchers yield at most one point each at one time |
| UtilChart.Collect | crates/hyperqueue/src/dashboard/ui/widgets/chart.rs:58-66 | over the window there is at most one point per fetcher and sampled time |
| UtilChart.FetchAtKeyPoints | crates/hyperqueue/src/dashboard/ui/widgets/chart.rs:60-66 | the pairs fetched at one time, restricted to a key, are that key's points in fetcher order |
| UtilChart.CollectKeyPoints | crates/hyperqueue/src/dashboard/ui/widgets/chart.rs:58-66 | the pairs fetched over the window, restricted to a key, are that key's points ordered by sample time, then fetcher order |
| UtilChart.KeyPointsAtNonEmpty | crates/hyperqueue/src/dashboard/ui/widgets/chart.rs:60-65 | a key has a point at a time exactly when some fetcher returns a point with that key then |
| UtilChart.KeyPointsNonEmpty | crates/hyperqueue/src/dashboard/ui/widgets/chart.rs:58-66 | a key has points in the window exactly when some fetcher returns it at some sample time |
| UtilChart.Update | crates/hyperqueue/src/dashboard/ui/widgets/chart.rs:46-74 | the end time becomes now and old datasets are dropped; a key has a dataset exactly when it has points, and the dataset is exactly its points ordered by sample time, then fetcher order |
| UtilChart.KeyPlotted | crates/hyperqueue/src/dashboard/ui/widgets/chart.rs:58-73 | a key is plotted exactly when some fetcher returns a point with that key at some sample time |
| UtilChart.FetchesKeyAtAppend | crates/hyperqueue/src/dashboard/ui/widgets/chart.rs:42-44 | appending a fetcher keeps every key the existing fetchers return |
| UtilChart.AddFetcherKeepsPlots | crates/hyperqueue/src/dashboard/ui/widgets/chart.rs:42-74 | adding a fetcher never removes a plot |
| UtilChart.DefaultPlotsNothing | crates/hyperqueue/src/dashboard/ui/widgets/chart.rs:120-129 | a chart without fetchers plots nothing, whenever it is updated |
| Common.SecondTicks | crates/hyperqueue/src/dashboard/ui/widgets/chart.rs:53-56 | a loop that steps one second while the time does not exceed a bound visits the start plus k seconds for each k up to the bound; it visits nothing when the start is past the bound, and the last visit lies within one second below the bound |
| Common.PushGrouped | crates/hyperqueue/src/dashboard/ui/widgets/chart.rs:67-73 | one push adds the key if it is new and appends the value to that key's vector only; every other key keeps its vector |
| Common.GroupFrom | crates/hyperqueue/src/dashboard/ui/widgets/chart.rs:67-73 | pushing pairs into a map of vectors gives every key its earlier values followed by its values among the pairs, in order; a key is present exactly when it was before or occurs among the pairs |
| Common.Enumerate | crates/hyperqueue/src/dashboard/ui/screens/auto_allocator/alloc_timeline_chart.rs:84-95 | iterating a map yields each entry exactly once, in some order |
| Common.ExtendFrom | crates/hyperqueue/src/dashboard/ui/widgets/timeline_chart/timeline_chart.rs:95 | extending a map never drops a key, and every new key comes from a pair |
| Common.ExtendFromLastWins | crates/hyperqueue/src/dashboard/ui/widgets/timeline_chart/timeline_chart.rs:95 | extending a map keeps, for each key, the last value the pairs give it, and the old value for keys they do not mention |

## Left out

- Connection handling is left out. This covers `handle_connection`, `receive_loop`, the sealed sink and the message opener, the tokio runtime and the thread started by `start_stream_server`: they are asynchronous I/O and foreign library calls. An `AddConnection` command is accepted and otherwise ignored, because the task it spawns is not modelled.
- The job writers, the log-file format and acknowledgements have no code in the modelled files. The `streams` map is carried through unchanged, and a writer queue is only an opaque handle.
- The draft's `stream_server_main` declares a `streams` variable that it never initialises or uses. The draft model has no such field.
- Drawing is left out: `draw` methods, canvases, layouts and the `Shape::draw` painters are terminal UI.
- Floating-point chart values are left out. This covers the CPU averages of the home and job screens and the plotted coordinates, which are kept opaque.
- Table formatting with `serde_json` is left out.
- `dashboard/data/tasks_timeline.rs` is not part of this model. It is an unfinished third variant that does not fit the event types.
- The worker timeline and the allocation timeline are not part of this model. `DashboardData` keeps the events handed to them, and the allocation charts take the allocation query as a parameter.
- `DashboardData::query_task_history_for_worker` and the other `query_*` forwarders are left out. Only `query_task_history_for_worker` reads the clock (mod.rs line 60); it passes `SystemTime::now()` to the job timeline's history query, which is modelled as `JobTimeline.GetWorkerTaskHistory`. The others pass a time or descriptor from their caller on to the worker or allocation timeline, and those timelines are not part of this model.
- `DashboardData.UpdateData`: it states the sort as "some time-sorted permutation" rather than one particular order, because `sort_unstable_by_key` leaves the order of events with equal times open.
- `JobTimeline.StartTask`, `JobTimeline.UpdateTaskStatus` and their variants: when several jobs list the same task, they do not say which of those jobs `find` returns. They say that exactly one of them is looked at and that every other job is unchanged. The source's choice follows `HashMap` iteration order, which is unspecified.
- `TaskTimeline.ProjectApplyEvent` assumes that both revisions iterate their job maps in the same order. Then both find the same job for a task that several jobs list. The model expresses this by using the one choice `Events.Pick` in both revisions. If every task is listed by at most one job, the assumption makes no difference.
- `TaskTimeline.ProjectStartTask` makes the same same-iteration-order assumption.
- `TaskTimeline.ProjectUpdateTaskStatus` makes the same same-iteration-order assumption.
- `TaskTimeline.VariantsAgree` makes the same same-iteration-order assumption, because it is built from `TaskTimeline.ProjectApplyEvent`.
- `JobTimeline.GetWorkerTaskHistory`: it returns a set, while the source yields an iterator in `HashMap` order. The source flattens the tasks of all jobs (job_timeline.rs lines 115-119). A task listed by two jobs can therefore be recorded under both, by two `TaskStarted` events that find different jobs. If both records are equal, the source yields the pair twice and the set holds it once.
- `TaskTimeline.GetWorkerTaskHistory`: it returns a set, while the source yields an iterator in `HashMap` order. The source flattens the tasks of all jobs (task_timeline.rs lines 99-108). A task listed by two jobs can be recorded under both, and the source then yields an equal pair twice where the set holds it once.
- `JobTimeline.GetTaskStateAt`: it requires the query time not to be before the task's start, and an end state whenever the end time is not after the query time. These are the source's `assert!` and its `unwrap` in the last match arm. A task that ends later and has no end state is running, and `JobTimeline.HandleNewEventsWellFormed` shows that every reachable timeline records an end state with every end time.
- `TimelineChart.Update`: the model ignores that the source also pushes each visited time onto a vector it never reads.
- `UtilChart.Update`: the model ignores the panic that `SystemTime - Duration` raises when the result overflows the platform's time representation. On Unix `SystemTime` holds signed seconds, so times before 1970 do not panic. Every other subtraction of a window from a time is treated the same way.

The source also has two behaviours that the model keeps exactly as written:
- Both allocation charts first query one second after the window start, and last query up to one second after `max_time`, because the loop advances before it queries.
- The older chart's `update` never moves `max_time`.
