/** The entities the engine reads and writes, and the two repositories it
    talks to: a job store it only reads and an execution store it only
    appends to. */
module Domain {

  datatype Option<+T> = None | Some(value: T)

  /** Timestamps are nanoseconds on the wall clock (LocalDateTime has
      nanosecond precision). */
  type Time = int

  /** A job row as the engine sees it. A `null` command is `None`; the
      `status` flag is the "enabled" switch. */
  datatype Job = Job(
    id: int,
    name: string,
    description: string,
    command: Option<string>,
    status: bool,
    startDate: Option<Time>,
    endDate: Option<Time>,
    cronExpression: string)

  /** One attempt to run a job, as filled in by the engine's setters. */
  datatype Execution = Execution(
    job: Job,
    startTime: Time,
    endTime: Time,
    success: bool,
    exitCode: int,
    output: string)

  /** Primary keys are unique in the job table. */
  predicate UniqueIds(jobs: seq<Job>) {
    forall i, j :: 0 <= i < j < |jobs| ==> jobs[i].id != jobs[j].id
  }

  /** The job repository's `findById`: the row whose key is `id`, if any. */
  function FindById(jobs: seq<Job>, id: int): (r: Option<Job>)
    ensures r.Some? ==> r.value in jobs && r.value.id == id
    ensures r.None? <==> forall k :: 0 <= k < |jobs| ==> jobs[k].id != id
  {
    if jobs == [] then None
    else if jobs[0].id == id then Some(jobs[0])
    else FindById(jobs[1..], id)
  }

  /** With unique keys, looking up the key of any stored job finds that job. */
  lemma FindByIdFindsStoredJob(jobs: seq<Job>, k: int)
    requires UniqueIds(jobs)
    requires 0 <= k < |jobs|
    ensures FindById(jobs, jobs[k].id) == Some(jobs[k])
  {
  }

  /** The job table. The surrounding system creates, edits and deletes
      rows; the engine only reads them. */
  class JobRepository {
    var jobs: seq<Job>

    constructor (jobs: seq<Job>)
      ensures this.jobs == jobs
    {
      this.jobs := jobs;
    }
  }

  /** The execution table, append-only as far as the engine is concerned. */
  class ExecutionRepository {
    var executions: seq<Execution>

    constructor ()
      ensures executions == []
    {
      executions := [];
    }

    /** `save` of a new row: the row goes after every earlier one. */
    method Save(e: Execution)
      modifies this
      ensures executions == old(executions) + [e]
    {
      executions := executions + [e];
    }
  }
}
