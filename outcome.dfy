/** The execution outcome rule shared by both copies of the engine: how a
    job's run is turned into the fields of one Execution record. */
module OutcomeRule {
  import opened Domain

  /** Longest output text kept in a record. */
  const OutputCap: nat := 10000

  /** The output recorded for a job that has no command. */
  const NoScriptNotice: string := "No job script provided."

  /** What the process runner hands back for a command it accepts: the
      exit code with everything read from standard output and standard
      error, or the message of the IOException, InterruptedException or
      ExecutionException it raised (the exceptions `executeJob` catches). */
  datatype RunResult =
    | Completed(exitCode: int, stdout: string, stderr: string)
    | RunFailed(message: string)

  /** The unchecked exceptions `Runtime.exec(String)` throws before any
      process is started, which no catch clause of `executeJob` names. */
  datatype UncheckedException =
    | IllegalArgumentException(message: string)
    | IndexOutOfBoundsException

  /** What the engine makes of a command before saving anything. */
  datatype CommandOutcome =
    | Finished(success: bool, exitCode: int, output: string)
    | Failed(message: string)
    | Rejected(exception: UncheckedException)

  /** What one on-demand execution amounts to, before it is reported in
      either copy's own way. */
  datatype Attempt =
    | JobMissing
    | Recorded(execution: Execution)
    | RunnerFailed(message: string)
    | Uncaught(exception: UncheckedException)

  /** The characters `Runtime.exec(String)` splits a command at (the
      default delimiters of `StringTokenizer`). */
  const Delimiters: string := " \t\n\r\U{000C}"

  /** `Runtime.exec(String)` refuses an empty command outright, and a
      command made only of delimiters splits into no words, so starting it
      fails on the missing program name. Any other command is handed on. */
  function ExecCheck(command: string): (r: Option<UncheckedException>)
    ensures r.None? <==> exists i :: 0 <= i < |command| && command[i] !in Delimiters
    ensures r == Some(IllegalArgumentException("Empty command")) <==> command == ""
    ensures r == Some(IndexOutOfBoundsException) <==>
              command != "" && forall i :: 0 <= i < |command| ==> command[i] in Delimiters
  {
    if command == "" then Some(IllegalArgumentException("Empty command"))
    else if forall i :: 0 <= i < |command| ==> command[i] in Delimiters then Some(IndexOutOfBoundsException)
    else None
  }

  function Min(a: int, b: int): int { if a <= b then a else b }

  /** Text cut down to the cap: a prefix of the input, kept whole when it
      fits and cut to exactly the cap when it does not. */
  function Clip(s: string): (r: string)
    ensures |r| == Min(|s|, OutputCap)
    ensures r == s[..|r|]
  {
    if |s| >= OutputCap then s[..OutputCap] else s
  }

  /** Which captured stream a record keeps: standard output when the exit
      code is 0, standard error otherwise. */
  function SelectedStream(exitCode: int, stdout: string, stderr: string): (s: string)
    ensures exitCode == 0 ==> s == stdout
    ensures exitCode != 0 ==> s == stderr
  {
    if exitCode == 0 then stdout else stderr
  }

  /** The output text stored for a finished process. */
  function StoredOutput(exitCode: int, stdout: string, stderr: string): (out: string)
    ensures |out| == Min(|SelectedStream(exitCode, stdout, stderr)|, OutputCap)
    ensures out == SelectedStream(exitCode, stdout, stderr)[..|out|]
  {
    Clip(SelectedStream(exitCode, stdout, stderr))
  }

  /** A failed run's stored output does not depend on what it wrote to
      standard output. */
  lemma FailureOutputIgnoresStdout(exitCode: int, stdout1: string, stdout2: string, stderr: string)
    requires exitCode != 0
    ensures StoredOutput(exitCode, stdout1, stderr) == StoredOutput(exitCode, stdout2, stderr)
    ensures StoredOutput(exitCode, stdout1, stderr) == Clip(stderr)
  {
  }

  /** Output that fits is stored as it is; longer output keeps its first
      OutputCap characters. */
  lemma StoredOutputCases(exitCode: int, stdout: string, stderr: string)
    ensures var s := SelectedStream(exitCode, stdout, stderr);
            (|s| <= OutputCap ==> StoredOutput(exitCode, stdout, stderr) == s) &&
            (|s| > OutputCap ==> StoredOutput(exitCode, stdout, stderr) == s[..OutputCap])
  {
  }

  /** The outcome rule as a reference definition: success is "exit code
      0", and the stored output is the clipped selected stream. A runner
      failure produces no values at all, so the placeholder exit code never
      reaches a record. */
  function Classify(r: RunResult): (o: CommandOutcome)
    ensures o.Failed? <==> r.RunFailed?
    ensures o.Failed? ==> o.message == r.message
    ensures o.Finished? ==> o.exitCode == r.exitCode && (o.success <==> o.exitCode == 0)
    ensures o.Finished? ==> o.output == StoredOutput(r.exitCode, r.stdout, r.stderr)
  {
    match r
    case RunFailed(message) => Failed(message)
    case Completed(exitCode, stdout, stderr) =>
      Finished(exitCode == 0, exitCode, StoredOutput(exitCode, stdout, stderr))
  }

  /** What becomes of a non-null command: refused by `Runtime.exec` when
      it has no word, otherwise the runner's result classified. */
  function CommandResult(command: string, run: string -> RunResult): (o: CommandOutcome)
    ensures o.Rejected? <==> ExecCheck(command).Some?
    ensures o.Rejected? ==> o.exception == ExecCheck(command).value
    ensures !o.Rejected? ==> o == Classify(run(command))
  {
    match ExecCheck(command)
    case Some(exception) => Rejected(exception)
    case None => Classify(run(command))
  }

  /** The body of `executeJob` between starting the process and saving:
      the locals start as exit code -1 and empty texts, `exec` refuses a
      command with no word, otherwise the locals take the runner's values,
      then the output is cut and, on failure, replaced by the cut error
      text. */
  method RunCommand(command: string, run: string -> RunResult) returns (o: CommandOutcome)
    ensures o == CommandResult(command, run)
  {
    var exitCode := -1;
    var output := "";
    var errorOutput := "";
    var rejection := ExecCheck(command);
    if rejection.Some? {
      return Rejected(rejection.value);
    }
    match run(command) {
      case RunFailed(message) =>
        return Failed(message);
      case Completed(code, stdout, stderr) =>
        exitCode, output, errorOutput := code, stdout, stderr;
    }
    var success := exitCode == 0;
    if |output| >= OutputCap {
      output := output[..OutputCap];
    }
    if !success {
      output := if |errorOutput| >= OutputCap then errorOutput[..OutputCap] else errorOutput;
    }
    o := Finished(success, exitCode, output);
  }

  /** Everything one on-demand execution decides, from the id to the record
      it would save. The start time is taken after the lookup and the end
      time when the record is saved; both are parameters here. */
  function AttemptJob(jobs: seq<Job>, jid: int, startTime: Time, endTime: Time,
                      run: string -> RunResult): (a: Attempt)
    ensures a.JobMissing? <==> FindById(jobs, jid).None?
    ensures a.Recorded? ==>
              FindById(jobs, jid) == Some(a.execution.job) &&
              a.execution.startTime == startTime && a.execution.endTime == endTime &&
              (a.execution.success <==> a.execution.exitCode == 0) &&
              |a.execution.output| <= OutputCap
    ensures FindById(jobs, jid).Some? && FindById(jobs, jid).value.command.None? ==>
              a.Recorded? && a.execution.success && a.execution.exitCode == 0 &&
              a.execution.output == NoScriptNotice
    ensures FindById(jobs, jid).Some? && FindById(jobs, jid).value.command.Some? ==>
              var c := FindById(jobs, jid).value.command.value;
              (a.Uncaught? <==> ExecCheck(c).Some?) &&
              (a.Uncaught? ==> a.exception == ExecCheck(c).value)
    ensures FindById(jobs, jid).Some? && FindById(jobs, jid).value.command.Some? &&
            ExecCheck(FindById(jobs, jid).value.command.value).None? ==>
              var r := run(FindById(jobs, jid).value.command.value);
              (a.RunnerFailed? <==> r.RunFailed?) &&
              (a.RunnerFailed? ==> a.message == r.message) &&
              (a.Recorded? ==> a.execution.exitCode == r.exitCode &&
                               a.execution.output == StoredOutput(r.exitCode, r.stdout, r.stderr))
  {
    match FindById(jobs, jid)
    case None => JobMissing
    case Some(job) =>
      match job.command
      case None => Recorded(Execution(job, startTime, endTime, true, 0, NoScriptNotice))
      case Some(command) =>
        match CommandResult(command, run)
        case Rejected(exception) => Uncaught(exception)
        case Failed(message) => RunnerFailed(message)
        case Finished(success, exitCode, output) =>
          Recorded(Execution(job, startTime, endTime, success, exitCode, output))
  }

  /** The rows an attempt adds to the execution store: one record or none. */
  function Saved(a: Attempt): (rows: seq<Execution>)
    ensures |rows| <= 1
    ensures |rows| == 1 <==> a.Recorded?
    ensures a.Recorded? ==> rows[0] == a.execution
  {
    if a.Recorded? then [a.execution] else []
  }

  /** The process runner is consulted only through the job's own command:
      two runners that agree on it give the same attempt, and a job with no
      command gives the same attempt whatever the runner does. */
  lemma RunnerConsultedOnlyForCommand(jobs: seq<Job>, jid: int, startTime: Time, endTime: Time,
                                      run1: string -> RunResult, run2: string -> RunResult)
    requires FindById(jobs, jid).Some? ==>
               var c := FindById(jobs, jid).value.command;
               c.Some? ==> run1(c.value) == run2(c.value)
    ensures AttemptJob(jobs, jid, startTime, endTime, run1) ==
            AttemptJob(jobs, jid, startTime, endTime, run2)
  {
  }

  /** An empty or blank command is not "no command": it reaches
      `Runtime.exec`, whose exception escapes `executeJob` before anything
      is saved, whatever the runner would have done. */
  lemma BlankCommandEscapes(jobs: seq<Job>, jid: int, startTime: Time, endTime: Time,
                            run: string -> RunResult, command: string)
    requires FindById(jobs, jid).Some? && FindById(jobs, jid).value.command == Some(command)
    requires forall i :: 0 <= i < |command| ==> command[i] in Delimiters
    ensures AttemptJob(jobs, jid, startTime, endTime, run).Uncaught?
    ensures command == "" ==>
              AttemptJob(jobs, jid, startTime, endTime, run) ==
              Uncaught(IllegalArgumentException("Empty command"))
    ensures Saved(AttemptJob(jobs, jid, startTime, endTime, run)) == []
  {
  }

  /** A record is well formed when success agrees with the exit code, the
      output fits the cap and the end does not precede the start. */
  predicate WellFormed(e: Execution) {
    (e.success <==> e.exitCode == 0) && |e.output| <= OutputCap && e.startTime <= e.endTime
  }

  /** Given a clock that does not run backwards, every record an attempt
      produces is well formed. */
  lemma RecordedIsWellFormed(jobs: seq<Job>, jid: int, startTime: Time, endTime: Time,
                             run: string -> RunResult)
    requires startTime <= endTime
    ensures forall e :: e in Saved(AttemptJob(jobs, jid, startTime, endTime, run)) ==> WellFormed(e)
  {
  }
}
