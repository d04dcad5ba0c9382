/** The live engine: `executeJob` reports a missing job and a runner
    failure as HTTP status results, and the poll tick submits due jobs. */
module JobServiceModel {
  import opened Domain
  import opened OutcomeRule
  import opened Dispatch

  /** How a call to `executeJob` ends: with the `ResponseEntity` it
      returns, or, for an exception no catch clause names, by letting that
      exception propagate to its caller. */
  datatype Response =
    | Ok(execution: Execution)
    | NotFound(jid: int)
    | InternalServerError(message: string)
    | Escaped(exception: UncheckedException)

  const ExceptionPrefix: string := "executeJob(): Exception - "

  /** How the live copy reports an attempt. */
  function Respond(jid: int, a: Attempt): (r: Response)
    ensures r.Ok? <==> a.Recorded?
    ensures r.Ok? ==> r.execution == a.execution
    ensures r.NotFound? <==> a.JobMissing?
    ensures r.NotFound? ==> r.jid == jid
    ensures r.InternalServerError? <==> a.RunnerFailed?
    ensures r.InternalServerError? ==> r.message == ExceptionPrefix + a.message
    ensures r.Escaped? <==> a.Uncaught?
    ensures r.Escaped? ==> r.exception == a.exception
  {
    match a
    case JobMissing => NotFound(jid)
    case Uncaught(exception) => Escaped(exception)
    case RunnerFailed(message) => InternalServerError(ExceptionPrefix + message)
    case Recorded(execution) => Ok(execution)
  }

  class JobService {
    const jobRepository: JobRepository
    const executionRepository: ExecutionRepository

    constructor (jobRepository: JobRepository, executionRepository: ExecutionRepository)
      ensures this.jobRepository == jobRepository
      ensures this.executionRepository == executionRepository
    {
      this.jobRepository := jobRepository;
      this.executionRepository := executionRepository;
    }

    /** Run one job now. The clock readings and the process runner are
        parameters. Only the execution store changes, and only by one
        appended record, on the paths that save; an escaping exception
        saves nothing. */
    method ExecuteJob(jid: int, startTime: Time, endTime: Time, run: string -> RunResult)
      returns (r: Response)
      modifies executionRepository
      ensures r == Respond(jid, AttemptJob(jobRepository.jobs, jid, startTime, endTime, run))
      ensures executionRepository.executions ==
              old(executionRepository.executions) +
              Saved(AttemptJob(jobRepository.jobs, jid, startTime, endTime, run))
    {
      var jobOptional := FindById(jobRepository.jobs, jid);
      if jobOptional.None? {
        return NotFound(jid);
      }
      var job := jobOptional.value;
      var command := job.command;
      if command.None? {
        var execution := CreateAndSaveExecution(job, true, 0, NoScriptNotice, startTime, endTime);
        return Ok(execution);
      }
      var outcome := RunCommand(command.value, run);
      if outcome.Rejected? {
        return Escaped(outcome.exception);
      }
      if outcome.Failed? {
        return InternalServerError(ExceptionPrefix + outcome.message);
      }
      var execution := CreateAndSaveExecution(job, outcome.success, outcome.exitCode, outcome.output,
                                              startTime, endTime);
      r := Ok(execution);
    }

    /** One poll tick over a snapshot of every job; it returns the ids it
        submitted and changes nothing. */
    method CheckAndExecuteJobs(now: Time, next: CronOracle) returns (t: TickOutcome)
      ensures t == Scan(jobRepository.jobs, now, next)
    {
      var jobs := jobRepository.jobs;
      t := PollJobs(jobs, now, next);
    }

    /** Fill a new record through its setters and save it. */
    method CreateAndSaveExecution(job: Job, success: bool, exitCode: int, output: string,
                                  startTime: Time, endTime: Time) returns (e: Execution)
      modifies executionRepository
      ensures e.job == job && e.startTime == startTime && e.endTime == endTime
      ensures e.success == success && e.exitCode == exitCode && e.output == output
      ensures executionRepository.executions == old(executionRepository.executions) + [e]
    {
      e := Execution(job, startTime, endTime, success, exitCode, output);
      executionRepository.Save(e);
    }
  }
}
