/** What a record holds, told from the operations it went through since its creation. */
module CronHistory {
  import opened CronRuns
  import opened CronSchedules
  import opened CronStore
  import opened Text

  /** The operations of a run on one record, from its creation. */
  function Reached(job: Job, cal: Calendar, run: seq<Timed>): Job {
    if run == [] then job else
    var e := run[|run| - 1];
    Do(Reached(job, cal, run[..|run| - 1]), cal, e.op, e.now)
  }

  // ----- claims ---------------------------------------------------------------------------

  predicate Standing(claim: Option<Claim>, now: int) {
    claim.Some? && claim.value.at <= now < claim.value.at + 300_000
  }

  predicate Live(job: Job) {
    job.enabled && (job.state.Scheduled? || job.state.Errored?)
  }

  /** A claim is taken when none stands, renewed by its owner while it stands, given up by its owner. */
  function ClaimAfterwards(job: Job, op: Op, now: int): Option<Claim> {
    var mine := (owner: nat) => job.claim.Some? && job.claim.value.owner == owner;
    match op
    case MakeClaim(token) => if Live(job) && !Standing(job.claim, now) then Some(Claim(now, token)) else job.claim
    case Heartbeat(owner) => if mine(owner) && Standing(job.claim, now) then Some(Claim(now, owner)) else job.claim
    case Clear(owner) => if mine(owner) then None else job.claim
    case Mark(expected, _, _) => if expected.None? || mine(expected.value) then None else job.claim
    case _ => job.claim
  }

  lemma ClaimMoves(job: Job, cal: Calendar, op: Op, now: int)
    ensures Do(job, cal, op, now).claim == ClaimAfterwards(job, op, now)
  {
  }

  // ----- marks ----------------------------------------------------------------------------

  /** The run ends in a mark that the record took: by nobody in particular, or by the owner of its claim. */
  predicate Taken(job: Job, e: Timed) {
    e.op.Mark? && (e.op.expected.None? || (job.claim.Some? && job.claim.value.owner == e.op.expected.value))
  }

  function LastMark(job: Job, cal: Calendar, run: seq<Timed>): Option<Timed> {
    if run == [] then None
    else if Taken(Reached(job, cal, run[..|run| - 1]), run[|run| - 1]) then Some(run[|run| - 1])
    else LastMark(job, cal, run[..|run| - 1])
  }

  /** Failed marks since the last one that succeeded. */
  function FailuresInARow(job: Job, cal: Calendar, run: seq<Timed>): nat {
    if run == [] then 0 else
    var before, e := run[..|run| - 1], run[|run| - 1];
    if !Taken(Reached(job, cal, before), e) then FailuresInARow(job, cal, before)
    else if e.op.success then 0 else FailuresInARow(job, cal, before) + 1
  }

  function StatusOf(e: Timed): Status
    requires e.op.Mark?
  {
    if e.op.status.Some? then e.op.status.value else if e.op.success then RunOk else RunError
  }

  lemma MarksCounted(job: Job, cal: Calendar, e: Timed)
    ensures var after := Do(job, cal, e.op, e.now);
            if Taken(job, e) then
              && after.lastRunAt == Some(e.now) && after.lastStatus == Some(StatusOf(e))
              && after.failureStreak == if e.op.success then 0 else job.failureStreak + 1
            else
              after.lastRunAt == job.lastRunAt && after.lastStatus == job.lastStatus
              && after.failureStreak == job.failureStreak
  {
  }

  /** The record tells of this last mark and of so many failures in a row. */
  predicate Tells(job: Job, last: Option<Timed>, failures: nat) {
    && (last.Some? ==> last.value.op.Mark?)
    && job.lastRunAt == (if last.Some? then Some(last.value.now) else None)
    && job.lastStatus == (if last.Some? then Some(StatusOf(last.value)) else None)
    && job.failureStreak == failures
  }

  lemma TellsStep(job: Job, cal: Calendar, e: Timed, last: Option<Timed>, failures: nat)
    requires Tells(job, last, failures)
    ensures if !Taken(job, e) then Tells(Do(job, cal, e.op, e.now), last, failures)
            else Tells(Do(job, cal, e.op, e.now), Some(e), if e.op.success then 0 else failures + 1)
  {
    MarksCounted(job, cal, e);
  }

  /** In any run from the creation of a job the record tells of its last mark, and counts the failures up to it. */
  lemma {:induction false} RecordTells(id: string, cal: Calendar, sch: Schedule, now: int, run: seq<Timed>, start: Job)
    requires NewJob(id, cal, sch, now) == Some(start)
    ensures Tells(Reached(start, cal, run), LastMark(start, cal, run), FailuresInARow(start, cal, run))
  {
    if run == [] {
    } else {
      var before, e := run[..|run| - 1], run[|run| - 1];
      RecordTells(id, cal, sch, now, before, start);
      TellsStep(Reached(start, cal, before), cal, e, LastMark(start, cal, before), FailuresInARow(start, cal, before));
    }
  }

  // ----- the state of a job ------------------------------------------------------------------

  /** No next run can be computed at an instant. */
  predicate NoNext(sch: Schedule, cal: Calendar, now: int) {
    ComputeNextRun(sch, cal, now, None).None?
  }

  /** A one-shot that would be past its grace is neither resumed nor rescheduled to. */
  predicate Refused(job: Job, cal: Calendar, op: Op, now: int) {
    || (op.Resume? && job.schedule.Once? && job.schedule.runAt < now - 120_000)
    || (op.Update? && op.sch.Once? && op.sch.runAt < now - 120_000 && !job.state.Paused?)
  }

  /**
   What operators do: a pause disables, a resume enables, an update replaces the schedule, and the
   latter two compute the next run from the present; a refused one changes nothing.
  */
  lemma OperatorsMean(job: Job, cal: Calendar, op: Op, now: int)
    requires op.Pause? || op.Resume? || op.Update?
    ensures Do(job, cal, op, now)
         == if Refused(job, cal, op, now) then job
            else if op.Pause? then job.(enabled := false, state := Paused)
            else if op.Resume? then job.(enabled := true, state := Scheduled,
                                         nextRunAt := ComputeNextRun(job.schedule, cal, now, None))
            else job.(schedule := op.sch, nextRunAt := ComputeNextRun(op.sch, cal, now, None))
  {
  }

  /**
   What a mark that is taken leaves: a one-shot completed; a recurring job parked on its next run
   from now, paused if it was paused and else scheduled, or in error when there is no next run.
  */
  lemma MarkedState(job: Job, cal: Calendar, e: Timed)
    requires Taken(job, e) && !(job.schedule.Interval? && job.schedule.minutes == 0)
    ensures var after := Do(job, cal, e.op, e.now);
            if job.schedule.Once? then after.state == Completed && !after.enabled && after.nextRunAt.None?
            else
              && after.enabled == job.enabled
              && after.nextRunAt == ComputeNextRun(job.schedule, cal, e.now, None)
              && after.state == (if after.nextRunAt.None? then Errored else if job.state == Paused then Paused else Scheduled)
  {
    if !job.schedule.Once? { NextRunIsLater(job.schedule, cal, e.now); }
    MarkShape(job, cal, e.op.expected, e.now, e.op.success, e.op.status);
    var after := Do(job, cal, e.op, e.now);
    assert after.nextRunAt == ComputeNextRun(job.schedule, cal, e.now, Some(e.now));
  }

  /** A claim or an advance moves a recurring job to its next run from now, if there is one, and no one-shot. */
  lemma ClaimAdvances(job: Job, cal: Calendar, op: Op, now: int)
    requires op.Advance? || op.MakeClaim?
    ensures var after := Do(job, cal, op, now);
            && after == job.(claim := after.claim, nextRunAt := after.nextRunAt)
            && after.nextRunAt
               == (if !job.schedule.Once? && !NoNext(job.schedule, cal, now)
                      && (op.MakeClaim? ==> Live(job) && !Standing(job.claim, now))
                   then ComputeNextRun(job.schedule, cal, now, None) else job.nextRunAt)
  {
  }

  /** A heartbeat and a clear touch the claim alone. */
  lemma ClaimOnly(job: Job, cal: Calendar, op: Op, now: int)
    requires op.Heartbeat? || op.Clear?
    ensures Do(job, cal, op, now) == job.(claim := Do(job, cal, op, now).claim)
  {
  }

  /** A due job is flagged as fast-forwarded exactly when its slot is older than the grace and was moved on. */
  lemma FlagsForwarded(job: Job, cal: Calendar, now: int, slot: int)
    requires Recurs(job.schedule) && Live(job) && job.nextRunAt == Some(slot) && slot <= now
    ensures var (after, due) := Due(job, cal, now);
            && due.Some? && due.value.job == after
            && (due.value.fastForwarded <==> now - slot > CatchupGrace(job.schedule, cal, now) && !NoNext(job.schedule, cal, now))
  {
  }

  /** Of a one-shot what is listed is the record as it stands. */
  lemma OneShotListed(job: Job, cal: Calendar, now: int)
    requires job.schedule.Once?
    ensures Due(job, cal, now).1.Some? ==> Due(job, cal, now) == (job, Some(DueJob(job, false)))
  {
  }
}
