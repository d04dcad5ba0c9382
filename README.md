# Job scheduler execution engine — a Dafny model

This project models the scheduling-and-execution engine of a small job
scheduler. Users register jobs that hold a shell command and a six-field cron
expression. Every 5 seconds a poll tick scans all jobs and submits the due
ones to a worker pool. Each submitted job runs `executeJob`, which looks the
job up by id, runs its command and appends one Execution record (success,
exit code, captured output, start and end time) to the execution store.

The engine exists in two copies. They share the same steps and differ only
in how errors reach the caller:

- `service/JobService.java` is the live copy. It returns a NOT_FOUND or
  INTERNAL_SERVER_ERROR response.
- `JobScheduler.java` is the older copy. It throws `JobNotFoundException`
  or a wrapping `RuntimeException`. Its calls to `getCommand`, `getId` and
  `setStartTime` do not exist on the `com.example.job.Job` and `Execution`
  classes beside it, so both copies are modelled over the job entity of
  `domain/Job.java`.

Modules:

- `Domain` (domain.dfy): the `Job` and `Execution` records, `FindById`,
  the job table (read-only to the engine) and the execution table (the
  engine only appends to it).
- `OutcomeRule` (outcome.dfy): the outcome rule shared by both copies.
  It covers clipping to 10,000 characters, choosing stdout or stderr,
  deriving success from the exit code, the reference function `AttemptJob`
  for one on-demand execution, and the imperative `RunCommand` proved
  against it.
- `Dispatch` (dispatch.dfy): the due test, the spec function `Scan` of one
  tick, the loop `PollJobs` proved against it, and the lemmas about what a
  tick submits.
- `JobServiceModel` (job_service.dfy) and `JobSchedulerModel`
  (job_scheduler.dfy): the two engine classes. Each has `ExecuteJob`,
  `CheckAndExecuteJobs` and `CreateAndSaveExecution`. Each `ExecuteJob` is
  proved to return that copy's report of `AttemptJob` and to append exactly
  `Saved(AttemptJob(...))` to the execution store.

The outside world enters as parameters:

- The clock: `startTime`, `endTime` and `now` are integers counting
  nanoseconds.
- The process runner: `run: string -> RunResult`.
- Spring's `CronExpression.parse(...).next(now)`: the oracle
  `next: (string, Time) -> CronResult`.

Points where the code behaves differently from what one might expect:

- Only a `null` command is a no-op that succeeds at once. An empty command
  reaches `Runtime.exec(String)`, which throws `IllegalArgumentException`
  ("Empty command"). A command made only of blanks, tabs, line breaks or
  form feeds splits into no words, and starting it throws
  `IndexOutOfBoundsException`. Neither exception is caught by `executeJob`
  in either copy, so it escapes unwrapped and nothing is saved.
- A runner exception records nothing. It becomes an error result or a
  thrown exception, not a failed Execution with a sentinel exit code. The
  placeholder exit code -1 never reaches a record.
- The poll loop has no per-job fault isolation. A cron expression that
  does not parse, or that has no next fire time (`next` returns null and
  `Duration.between` then throws), ends the whole tick. Ids submitted
  before that job stay submitted; no later job is looked at.
- "Due" is `Duration.getSeconds() <= 5`, and `getSeconds` rounds down. So
  every fire time less than 6 seconds ahead is due, not only those within
  the 5-second tick period. `FireTimeDueAtTwoTicks` shows the effect: a
  fire time 5 to 6 seconds after a tick is due at that tick and at the
  next one.
- A tick asks only for each job's next fire time and submits a job at most
  once, so a cron firing more often than every 5 seconds runs once per
  tick and its other fire times are dropped.
- The tick submits the job's id, and `executeJob` looks the job up again
  by that id.

## Model

| member | source | states |
|---|---|---|
| `Domain.FindById` | src/main/java/com/example/job/dao/JobRepository.java:12 | the result is a stored job carrying the requested id; the result is absent exactly when no stored job has that id |
| `Domain.FindByIdFindsStoredJob` | src/main/java/com/example/job/domain/Job.java:22-25 | with unique primary keys, looking up the id of any stored job returns that very job |
| `Domain.ExecutionRepository.Save` | src/main/java/com/example/job/service/JobService.java:144 | saving appends the record after all earlier records and changes none of them |
| `OutcomeRule.Clip` | src/main/java/com/example/job/service/JobService.java:86-88 | the clipped text is a prefix of the input, of length min(length, 10000): unchanged when it fits, its first 10,000 characters otherwise |
| `OutcomeRule.StoredOutput` | src/main/java/com/example/job/service/JobService.java:86-89 | stored output is at most 10,000 characters and is a prefix of stdout when the exit code is 0 and of stderr otherwise, cut only at the cap |
| `OutcomeRule.FailureOutputIgnoresStdout` | src/main/java/com/example/job/service/JobService.java:87-89 | on a non-zero exit the stored output is the clipped stderr, whatever stdout contained |
| `OutcomeRule.StoredOutputCases` | src/main/java/com/example/job/service/JobService.java:86-89 | a selected stream of at most 10,000 characters is stored unchanged; a longer one is stored as its first 10,000 characters |
| `OutcomeRule.Classify` | src/main/java/com/example/job/service/JobService.java:77-89 | a runner exception yields no values, only its message; a finished run keeps the runner's exit code, success holds exactly when it is 0, and the output is the stored output rule |
| `OutcomeRule.ExecCheck` | src/main/java/com/example/job/service/JobService.java:65 | `exec` hands a command on exactly when it has a character other than the tokenizer's delimiters; the empty command, and only it, is refused with IllegalArgumentException("Empty command"); a non-empty all-delimiter command, and only it, fails with IndexOutOfBoundsException |
| `OutcomeRule.SelectedStream` | src/main/java/com/example/job/service/JobService.java:87-89 | the kept stream is stdout when the exit code is 0 and stderr otherwise |
| `OutcomeRule.CommandResult` | src/main/java/com/example/job/service/JobService.java:59-89 | a non-null command is rejected exactly when `exec` refuses it, with that exception and without consulting the runner; otherwise the outcome is `Classify` of the runner's result |
| `OutcomeRule.RunCommand` | src/main/java/com/example/job/service/JobService.java:59-89 | the step-by-step reassignment of exit code and output ends in exactly the outcome `CommandResult` defines: rejected by `exec`, or `Classify` of the runner's result |
| `OutcomeRule.AttemptJob` | src/main/java/com/example/job/service/JobService.java:41-92 | an unknown id and only an unknown id gives JobMissing; a null command records success, exit code 0 and the notice; a command `exec` refuses gives exactly that uncaught exception; otherwise a runner failure records nothing, and a finished run records the runner's exit code and the stored output; every record names the job found, the given start and end times, success iff exit code 0, and output within the cap |
| `OutcomeRule.Saved` | src/main/java/com/example/job/service/JobService.java:91-92 | an attempt saves one record exactly when it recorded one (that record), and none otherwise |
| `OutcomeRule.RunnerConsultedOnlyForCommand` | src/main/java/com/example/job/service/JobService.java:53-65 | the runner is consulted only on the job's own command: runners that agree on it give the same attempt, and with a null command any runner gives the same attempt |
| `OutcomeRule.BlankCommandEscapes` | src/main/java/com/example/job/service/JobService.java:53-80 | an empty or all-delimiter command is not short-circuited: whatever the runner, the attempt ends in an uncaught `exec` exception (IllegalArgumentException("Empty command") for the empty command) and saves nothing |
| `OutcomeRule.RecordedIsWellFormed` | src/main/java/com/example/job/service/JobService.java:134-147 | with a clock that does not go backwards, every saved record has success iff exit code 0, output within the cap, and start not after end |
| `Dispatch.WholeSecondsBetween` | src/main/java/com/example/job/service/JobService.java:122 | the duration's seconds are the floor of the nanosecond difference divided by 10^9 |
| `Dispatch.Due` | src/main/java/com/example/job/service/JobService.java:122-124 | a fire time is due exactly when it is less than 6 seconds after now |
| `Dispatch.FireTimeDueAtTwoTicks` | src/main/java/com/example/job/service/JobService.java:108-124 | a fire time more than 5 and less than 6 seconds after a tick is due both at that tick and at the tick 5 seconds later |
| `Dispatch.FireTimeBeforeNextTickIsDue` | src/main/java/com/example/job/service/JobService.java:108-124 | a fire time after now and no later than the next tick 5 seconds on passes the due test now; this is about the due test only, since a tick considers just the next fire time |
| `Dispatch.Consider` | src/main/java/com/example/job/service/JobService.java:117-124 | a job is submitted exactly when it is enabled and its next fire time is due; it ends the tick exactly when it is enabled and the cron call fails, with that failure |
| `Dispatch.Scan` | src/main/java/com/example/job/service/JobService.java:116-131 | a tick never submits more ids than there are jobs, and an aborted tick stops at the index of a job it has |
| `Dispatch.SubmittedIds` | src/main/java/com/example/job/service/JobService.java:116-129 | a scan never submits more ids than jobs scanned |
| `Dispatch.ScanShape` | src/main/java/com/example/job/service/JobService.java:116-131 | no job before the stopping point fails; an aborted tick stops at a job whose cron call fails, with that error; what was submitted is exactly the due, enabled jobs before the stopping point, in store order |
| `Dispatch.ScanIgnoresJobsAfterAbort` | src/main/java/com/example/job/service/JobService.java:119-121 | once a cron failure has aborted a tick, no later job changes what it submitted |
| `Dispatch.SubmittedIdsAppend` | src/main/java/com/example/job/service/JobService.java:116-131 | submissions follow store order: scanning two runs of jobs gives the first run's ids followed by the second's |
| `Dispatch.SubmittedIdsMember` | src/main/java/com/example/job/service/JobService.java:116-129 | an id is submitted exactly when some job carrying it is enabled and due |
| `Dispatch.SubmittedIdsDistinct` | src/main/java/com/example/job/service/JobService.java:116-129 | with unique job ids, no id is submitted twice in one tick |
| `Dispatch.TickSubmitsExactlyDueJobs` | src/main/java/com/example/job/service/JobService.java:113-131 | an id is submitted by a tick exactly when a job before the stopping point carries it, is enabled, and has a due next fire time; a disabled job is never submitted |
| `Dispatch.SubmittedIdsResolve` | src/main/java/com/example/job/service/JobService.java:127-129 | every submitted id names an enabled job of the same snapshot, which the worker's lookup by id finds |
| `Dispatch.PollJobs` | src/main/java/com/example/job/service/JobService.java:116-131 | the loop that skips disabled jobs, submits due ones and stops at the first cron failure returns exactly `Scan` of the jobs |
| `JobServiceModel.Respond` | src/main/java/com/example/job/service/JobService.java:43-80 | a missing job is reported as NOT_FOUND with its id, a caught runner exception as INTERNAL_SERVER_ERROR with the prefixed message, an uncaught `exec` exception escapes as it is, and a record is returned as OK |
| `JobServiceModel.JobService.ExecuteJob` | src/main/java/com/example/job/service/JobService.java:41-93 | returns the live report of `AttemptJob`; the execution store gains exactly the attempt's saved record and is unchanged on NOT_FOUND, on INTERNAL_SERVER_ERROR and when an `exec` exception escapes; the job table is not written |
| `JobServiceModel.JobService.CheckAndExecuteJobs` | src/main/java/com/example/job/service/JobService.java:110-131 | one tick over the job table's snapshot returns `Scan` of it and writes neither store |
| `JobServiceModel.JobService.CreateAndSaveExecution` | src/main/java/com/example/job/service/JobService.java:134-147 | builds the record from the given job, success, exit code, output and times, and appends exactly that record |
| `JobSchedulerModel.Complete` | src/main/java/com/example/job/JobScheduler.java:38-81 | a missing job throws JobNotFoundException with its id, a caught runner exception throws a RuntimeException wrapping its message, an uncaught `exec` exception escapes unwrapped, and a record is returned |
| `JobSchedulerModel.CopiesReportAlike` | src/main/java/com/example/job/JobScheduler.java:37-93 | the older copy reports every attempt as the live copy does, up to the error channel: a record is returned exactly when the live copy answers OK with it, JobNotFoundException exactly when NOT_FOUND, a RuntimeException carrying the runner's message exactly when INTERNAL_SERVER_ERROR carries it, and the same `exec` exception escapes from both |
| `JobSchedulerModel.JobScheduler.ExecuteJob` | src/main/java/com/example/job/JobScheduler.java:37-93 | completes as the older copy's report of `AttemptJob`; the execution store gains exactly the attempt's saved record and is unchanged whenever an exception is thrown |
| `JobSchedulerModel.JobScheduler.CheckAndExecuteJobs` | src/main/java/com/example/job/JobScheduler.java:109-131 | the same tick as the live copy: returns `Scan` of the job table's snapshot and writes neither store |
| `JobSchedulerModel.JobScheduler.CreateAndSaveExecution` | src/main/java/com/example/job/JobScheduler.java:133-146 | builds the record from the given job, success, exit code, output and times, and appends exactly that record |

## Left out

- Process spawning, stream draining and waiting (`Runtime.exec`, the two
  `CompletableFuture` readers, `waitFor`, `get`) are OS I/O and
  concurrency. They are the runner parameter `run`, whose result is the exit
  code and the two texts already joined with newlines.
- Thread-pool submission is concurrency. A tick's effect is the sequence of
  submitted ids, and the asynchronous `executeJob` calls they start are not
  interleaved with anything.
- Spring's `CronExpression.parse` and `next` are a library that is not part
  of this model. They are the oracle `next`. It may fail with a parse
  error or with "no next fire time", and nothing is assumed about its
  values.
- `LocalDateTime.now()` is the wall clock. Its readings are parameters.
- RecordedIsWellFormed: its hypothesis `startTime <= endTime` is not
  something the program guarantees. `LocalDateTime.now()` is local wall
  time, which goes back when daylight saving time ends or the system clock
  is set back, so a real record can end before it starts.
- What happens to an exception escaping `executeJob` is outside the
  engine: on the poll path the worker pool's task swallows it, and the
  REST controller (`controller/JobController.java`) catches it around the
  live copy's `executeJob` and answers NOT_FOUND.
- The `@Scheduled` trigger, logging, the REST controllers, CORS and the
  application bootstrap are framework code.
- Repository internals are JPA-generated. Jobs are a sequence in `findAll`
  order searched by `FindById`. Executions are a sequence that `Save`
  extends. The generated execution id and the job's `history` back-link
  are not modelled.
- Job descriptive fields and dates are carried but never read. A `null`
  `status` (which would throw on unboxing) is not modelled, because the
  flag is a `bool`.
- Text length is counted in characters. Java's `length` and `substring`
  count UTF-16 code units, so text with characters outside the Basic
  Multilingual Plane is clipped at a different point.
- The message texts of NOT_FOUND and of `JobNotFoundException` contain the
  id converted to text. The model carries the id itself.
