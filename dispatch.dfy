/** One poll tick: which jobs `checkAndExecuteJobs` submits to the worker
    pool, and where it stops when a cron expression cannot be evaluated. */
module Dispatch {
  import opened Domain

  const NanosPerSecond: int := 1_000_000_000

  /** A job is due when its next fire time is at most this many whole
      seconds away. */
  const DueWithinSeconds: int := 5

  /** Why the cron library could not give a next fire time: the expression
      did not parse, or it has no next occurrence (`next` returned null, and
      the duration computed from it throws). */
  datatype CronError = Malformed(message: string) | NeverFires

  /** The cron library's answer for an expression at a reference time. */
  datatype CronResult = Fires(at: Time) | Fails(error: CronError)

  /** `CronExpression.parse(expression).next(now)`, given as a parameter. */
  type CronOracle = (string, Time) -> CronResult

  /** `Duration.between(now, next).getSeconds()`: whole seconds, rounded
      toward negative infinity (Dafny's `/` by a positive divisor does the
      same). */
  function WholeSecondsBetween(now: Time, next: Time): (s: int)
    ensures s * NanosPerSecond <= next - now < (s + 1) * NanosPerSecond
  {
    (next - now) / NanosPerSecond
  }

  /** The due test of the poll loop. Because the seconds are rounded down,
      "at most 5 whole seconds" lets in every fire time less than 6 seconds
      away, and also every fire time already past. */
  predicate Due(now: Time, next: Time)
    ensures Due(now, next) <==> next - now < (DueWithinSeconds + 1) * NanosPerSecond
  {
    WholeSecondsBetween(now, next) <= DueWithinSeconds
  }

  /** The scheduler fires the poll every 5 seconds. A fire time more than 5
      and less than 6 seconds after a tick is due at that tick and, still
      being the next fire time, at the following tick too. */
  lemma FireTimeDueAtTwoTicks(now: Time, at: Time)
    requires now + DueWithinSeconds * NanosPerSecond < at < now + (DueWithinSeconds + 1) * NanosPerSecond
    ensures Due(now, at) && Due(now + DueWithinSeconds * NanosPerSecond, at)
  {
  }

  /** An instant after now and no later than the next tick 5 seconds on
      passes the due test at this tick. This is a fact about the test
      alone: a tick asks only for the job's next fire time and submits a
      job at most once, so a cron that fires more than once within 5
      seconds still runs once per tick. */
  lemma FireTimeBeforeNextTickIsDue(now: Time, at: Time)
    requires now < at <= now + DueWithinSeconds * NanosPerSecond
    ensures Due(now, at)
  {
  }

  /** What the loop body does with one job. */
  datatype Verdict = Skip | Submit | Abort(error: CronError)

  function Consider(job: Job, now: Time, next: CronOracle): (v: Verdict)
    ensures v == Submit <==>
              job.status && next(job.cronExpression, now).Fires? &&
              Due(now, next(job.cronExpression, now).at)
    ensures v.Abort? <==> job.status && next(job.cronExpression, now).Fails?
    ensures v.Abort? ==> v.error == next(job.cronExpression, now).error
  {
    if !job.status then Skip
    else match next(job.cronExpression, now)
      case Fires(at) => if Due(now, at) then Submit else Skip
      case Fails(error) => Abort(error)
  }

  /** The ids a scan submits when no job in `jobs` aborts it, in store order. */
  function SubmittedIds(jobs: seq<Job>, now: Time, next: CronOracle): (ids: seq<int>)
    ensures |ids| <= |jobs|
  {
    if jobs == [] then []
    else
      var last := jobs[|jobs| - 1];
      SubmittedIds(jobs[..|jobs| - 1], now, next) +
      (if Consider(last, now, next) == Submit then [last.id] else [])
  }

  /** How a tick ends: having looked at every job, or stopped by the
      exception thrown at index `at`. Submissions made before that stand. */
  datatype TickOutcome =
    | Done(submitted: seq<int>)
    | Aborted(submitted: seq<int>, at: nat, error: CronError)

  /** The tick as a function of the jobs in `findAll` order, defined job by
      job from the front as the loop runs: each job is submitted at most
      once, and a tick can only stop at a job it has. */
  function Scan(jobs: seq<Job>, now: Time, next: CronOracle): (t: TickOutcome)
    ensures |t.submitted| <= |jobs|
    ensures t.Aborted? ==> t.at < |jobs|
  {
    if jobs == [] then Done([])
    else
      var prev := Scan(jobs[..|jobs| - 1], now, next);
      var last := jobs[|jobs| - 1];
      if prev.Aborted? then prev
      else match Consider(last, now, next)
        case Skip => prev
        case Submit => Done(prev.submitted + [last.id])
        case Abort(error) => Aborted(prev.submitted, |jobs| - 1, error)
  }

  /** The point where a tick stops: the failing index, or the end. */
  function Stop(t: TickOutcome, jobs: seq<Job>): nat {
    if t.Aborted? then t.at else |jobs|
  }

  /** The shape of every tick: no job before the stopping point aborts, the
      job at an abort's index does abort (with its own error), and what was
      submitted is exactly the due, enabled jobs before the stopping point. */
  lemma {:induction false} ScanShape(jobs: seq<Job>, now: Time, next: CronOracle)
    ensures var t := Scan(jobs, now, next);
            var stop := Stop(t, jobs);
            stop <= |jobs| &&
            (forall k :: 0 <= k < stop ==> !Consider(jobs[k], now, next).Abort?) &&
            (t.Aborted? ==> t.at < |jobs| && Consider(jobs[t.at], now, next) == Abort(t.error)) &&
            t.submitted == SubmittedIds(jobs[..stop], now, next)
  {
    if jobs != [] {
      var init := jobs[..|jobs| - 1];
      ScanShape(init, now, next);
      var prev := Scan(init, now, next);
      assert forall k :: 0 <= k < |init| ==> init[k] == jobs[k];
      if prev.Aborted? {
        assert jobs[..prev.at] == init[..prev.at];
      } else {
        assert init[..|init|] == init;
        assert jobs[..|jobs|][..|jobs| - 1] == init;
      }
    }
  }

  /** Jobs after a failing one are never looked at. */
  lemma {:induction false} ScanIgnoresJobsAfterAbort(jobs: seq<Job>, rest: seq<Job>, now: Time, next: CronOracle)
    requires Scan(jobs, now, next).Aborted?
    ensures Scan(jobs + rest, now, next) == Scan(jobs, now, next)
  {
    if rest != [] {
      var init := rest[..|rest| - 1];
      assert (jobs + rest)[..|jobs + rest| - 1] == jobs + init;
      ScanIgnoresJobsAfterAbort(jobs, init, now, next);
    } else {
      assert jobs + rest == jobs;
    }
  }

  /** Submissions follow store order: scanning two runs of jobs one after
      the other submits the first run's ids, then the second's. */
  lemma {:induction false} SubmittedIdsAppend(a: seq<Job>, b: seq<Job>, now: Time, next: CronOracle)
    ensures SubmittedIds(a + b, now, next) == SubmittedIds(a, now, next) + SubmittedIds(b, now, next)
  {
    if b == [] {
      assert a + b == a;
    } else {
      var init := b[..|b| - 1];
      assert (a + b)[..|a + b| - 1] == a + init;
      assert (a + b)[|a + b| - 1] == b[|b| - 1];
      SubmittedIdsAppend(a, init, now, next);
    }
  }

  /** An id is submitted exactly when some job carrying it is enabled and due. */
  lemma {:induction false} SubmittedIdsMember(jobs: seq<Job>, now: Time, next: CronOracle, id: int)
    ensures id in SubmittedIds(jobs, now, next) <==>
            exists k :: 0 <= k < |jobs| && jobs[k].id == id && Consider(jobs[k], now, next) == Submit
  {
    if jobs != [] {
      var init := jobs[..|jobs| - 1];
      SubmittedIdsMember(init, now, next, id);
      assert forall k :: 0 <= k < |init| ==> init[k] == jobs[k];
      if id in SubmittedIds(init, now, next) {
        var k :| 0 <= k < |init| && init[k].id == id && Consider(init[k], now, next) == Submit;
        assert jobs[k] == init[k];
      }
    }
  }

  predicate NoDuplicates(ids: seq<int>) {
    forall i, j :: 0 <= i < j < |ids| ==> ids[i] != ids[j]
  }

  /** With unique keys, no job is submitted twice in one tick. */
  lemma {:induction false} SubmittedIdsDistinct(jobs: seq<Job>, now: Time, next: CronOracle)
    requires UniqueIds(jobs)
    ensures NoDuplicates(SubmittedIds(jobs, now, next))
  {
    if jobs != [] {
      var init := jobs[..|jobs| - 1];
      var last := jobs[|jobs| - 1];
      assert UniqueIds(init) by {
        forall i, j | 0 <= i < j < |init| ensures init[i].id != init[j].id {
          assert init[i] == jobs[i] && init[j] == jobs[j];
        }
      }
      SubmittedIdsDistinct(init, now, next);
      var prev := SubmittedIds(init, now, next);
      assert jobs[..|jobs| - 1] == init;
      if Consider(last, now, next) == Submit {
        if last.id in prev {
          SubmittedIdsMember(init, now, next, last.id);
          assert false;
        }
        var ids := prev + [last.id];
        assert SubmittedIds(jobs, now, next) == ids;
        forall i, j | 0 <= i < j < |ids| ensures ids[i] != ids[j] {
          assert ids[i] == prev[i];
          if j < |prev| {
            assert ids[j] == prev[j];
            assert prev[i] != prev[j];
          } else {
            assert ids[j] == last.id;
            assert prev[i] in prev;
          }
        }
      } else {
        assert SubmittedIds(jobs, now, next) == prev + [];
        assert prev + [] == prev;
      }
    }
  }

  /** One tick, stated for the caller: an id is submitted exactly when a job
      before the stopping point carries it, is enabled, and its cron
      expression gives a due fire time; in particular a disabled job is
      never submitted. */
  lemma TickSubmitsExactlyDueJobs(jobs: seq<Job>, now: Time, next: CronOracle, id: int)
    ensures var t := Scan(jobs, now, next);
            id in t.submitted <==>
            exists k :: 0 <= k < |jobs| && k < Stop(t, jobs) && jobs[k].id == id && jobs[k].status &&
                        next(jobs[k].cronExpression, now).Fires? &&
                        Due(now, next(jobs[k].cronExpression, now).at)
  {
    var t := Scan(jobs, now, next);
    ScanShape(jobs, now, next);
    var stop := Stop(t, jobs);
    SubmittedIdsMember(jobs[..stop], now, next, id);
    assert forall k :: 0 <= k < stop ==> jobs[..stop][k] == jobs[k];
  }

  /** Every id a tick submits names an enabled job of the same snapshot, so
      the worker's lookup by id finds it (unless it is deleted meanwhile). */
  lemma SubmittedIdsResolve(jobs: seq<Job>, now: Time, next: CronOracle, id: int)
    requires UniqueIds(jobs)
    requires id in Scan(jobs, now, next).submitted
    ensures FindById(jobs, id).Some? && FindById(jobs, id).value.status
  {
    TickSubmitsExactlyDueJobs(jobs, now, next, id);
    var k :| 0 <= k < |jobs| && k < Stop(Scan(jobs, now, next), jobs) && jobs[k].id == id && jobs[k].status;
    FindByIdFindsStoredJob(jobs, k);
  }

  /** The for-loop of `checkAndExecuteJobs`: disabled jobs are skipped, the
      cron oracle is asked for each enabled one, due jobs are submitted in
      order, and a cron failure ends the tick on the spot. */
  method PollJobs(jobs: seq<Job>, now: Time, next: CronOracle) returns (t: TickOutcome)
    ensures t == Scan(jobs, now, next)
  {
    var submitted: seq<int> := [];
    for i := 0 to |jobs|
      invariant Scan(jobs[..i], now, next) == Done(submitted)
    {
      assert jobs[..i + 1][..i] == jobs[..i];
      var job := jobs[i];
      if !job.status {
        continue;
      }
      match next(job.cronExpression, now) {
        case Fails(error) =>
          t := Aborted(submitted, i, error);
          ScanIgnoresJobsAfterAbort(jobs[..i + 1], jobs[i + 1..], now, next);
          assert jobs[..i + 1] + jobs[i + 1..] == jobs;
          return;
        case Fires(at) =>
          if WholeSecondsBetween(now, at) <= DueWithinSeconds {
            submitted := submitted + [job.id];
          }
      }
    }
    assert jobs[..|jobs|] == jobs;
    t := Done(submitted);
  }
}
