/** The older copy of the engine: the same steps, but a missing job and a
    runner failure are thrown as exceptions instead of returned. */
module JobSchedulerModel {
  import opened Domain
  import opened OutcomeRule
  import opened Dispatch
  import JobServiceModel

  /** The exceptions `executeJob` lets escape. A RuntimeException wraps the
      runner's exception, whose message is kept as the cause; what
      `Runtime.exec` throws for a command with no word escapes unwrapped. */
  datatype SchedulerException =
    | JobNotFoundException(jid: int)
    | RuntimeException(message: string, cause: string)
    | Unwrapped(exception: UncheckedException)

  /** How a call to `executeJob` completes: with a result, or by throwing. */
  datatype Completion =
    | Returned(execution: Execution)
    | Threw(exception: SchedulerException)

  const WrapperMessage: string := "JobController.executeJob(): Exception"

  /** How the older copy reports an attempt. */
  function Complete(jid: int, a: Attempt): (c: Completion)
    ensures c.Returned? <==> a.Recorded?
    ensures c.Returned? ==> c.execution == a.execution
    ensures a.JobMissing? <==> c == Threw(JobNotFoundException(jid))
    ensures a.RunnerFailed? <==> c.Threw? && c.exception.RuntimeException?
    ensures a.RunnerFailed? ==> c == Threw(RuntimeException(WrapperMessage, a.message))
    ensures a.Uncaught? <==> c.Threw? && c.exception.Unwrapped?
    ensures a.Uncaught? ==> c == Threw(Unwrapped(a.exception))
  {
    match a
    case JobMissing => Threw(JobNotFoundException(jid))
    case Uncaught(exception) => Threw(Unwrapped(exception))
    case RunnerFailed(message) => Threw(RuntimeException(WrapperMessage, message))
    case Recorded(execution) => Returned(execution)
  }

  /** The two copies differ only in how they report: for every attempt, the
      live copy answers OK with a record exactly when this copy returns that
      record, NOT_FOUND exactly when this copy throws JobNotFoundException
      for the same id, INTERNAL_SERVER_ERROR exactly when this copy throws
      a RuntimeException, both carrying the runner's message, and both let
      the same exception of `Runtime.exec` escape. */
  lemma CopiesReportAlike(jid: int, a: Attempt)
    ensures var r := JobServiceModel.Respond(jid, a);
            var c := Complete(jid, a);
            (r.Ok? <==> c.Returned?) && (r.Ok? ==> r.execution == c.execution) &&
            (r.NotFound? <==> c == Threw(JobNotFoundException(jid))) &&
            (r.InternalServerError? <==> c.Threw? && c.exception.RuntimeException?) &&
            (r.InternalServerError? ==>
               r.message == JobServiceModel.ExceptionPrefix + c.exception.cause) &&
            (r.Escaped? <==> c.Threw? && c.exception.Unwrapped?) &&
            (r.Escaped? ==> r.exception == c.exception.exception)
  {
  }

  class JobScheduler {
    const jobRepository: JobRepository
    const executionRepository: ExecutionRepository

    constructor (jobRepository: JobRepository, executionRepository: ExecutionRepository)
      ensures this.jobRepository == jobRepository
      ensures this.executionRepository == executionRepository
    {
      this.jobRepository := jobRepository;
      this.executionRepository := executionRepository;
    }

    /** Run one job now; a thrown exception leaves the execution store as
        it was. */
    method ExecuteJob(jid: int, startTime: Time, endTime: Time, run: string -> RunResult)
      returns (c: Completion)
      modifies executionRepository
      ensures c == Complete(jid, AttemptJob(jobRepository.jobs, jid, startTime, endTime, run))
      ensures executionRepository.executions ==
              old(executionRepository.executions) +
              Saved(AttemptJob(jobRepository.jobs, jid, startTime, endTime, run))
    {
      var jobOptional := FindById(jobRepository.jobs, jid);
      if jobOptional.None? {
        return Threw(JobNotFoundException(jid));
      }
      var job := jobOptional.value;
      var command := job.command;
      if command.None? {
        var execution := CreateAndSaveExecution(job, true, 0, NoScriptNotice, startTime, endTime);
        return Returned(execution);
      }
      var outcome := RunCommand(command.value, run);
      if outcome.Rejected? {
        return Threw(Unwrapped(outcome.exception));
      }
      if outcome.Failed? {
        return Threw(RuntimeException(WrapperMessage, outcome.message));
      }
      var execution := CreateAndSaveExecution(job, outcome.success, outcome.exitCode, outcome.output,
                                              startTime, endTime);
      c := Returned(execution);
    }

    /** One poll tick; identical in effect to the live copy's. */
    method CheckAndExecuteJobs(now: Time, next: CronOracle) returns (t: TickOutcome)
      ensures t == Scan(jobRepository.jobs, now, next)
    {
      var jobs := jobRepository.jobs;
      t := PollJobs(jobs, now, next);
    }

    /** Fill a new record through its setters and save it. */
    method CreateAndSaveExecution(job: Job, success: bool, exitCode: int, output: string,
                                  startTime: Time, endTime: Time) returns (e: Execution)
      modifies executionRepository
      ensures e.job == job && e.startTime == startTime && e.endTime == endTime
      ensures e.success == success && e.exitCode == exitCode && e.output == output
      ensures executionRepository.executions == old(executionRepository.executions) + [e]
    {
      e := Execution(job, startTime, endTime, success, exitCode, output);
      executionRepository.Save(e);
    }
  }
}
