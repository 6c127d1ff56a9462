/**
 The cron job table (src/pi_embedded/cron/store.ts). Every store operation runs inside one
 locked read-modify-write cycle, so an operation is a function of the record it touches and
 of the instant it runs at.
*/
module CronStore {
  import opened Text
  import opened CronSchedules

  datatype JobState = Scheduled | Paused | Completed | Errored
  datatype Status = RunOk | RunError | RunOther(name: string)

  /** The claim's token is minted afresh on every acquisition. */
  datatype Claim = Claim(at: int, owner: nat)

  datatype Job = Job(
    id: string,
    schedule: Schedule,
    enabled: bool,
    state: JobState,
    nextRunAt: Option<int>,
    lastRunAt: Option<int>,
    lastStatus: Option<Status>,
    claim: Option<Claim>,
    failureStreak: nat)

  const CLAIM_TTL := 300_000

  datatype DueJob = DueJob(job: Job, fastForwarded: bool)

  predicate Runnable(job: Job) {
    job.enabled && !job.state.Paused? && !job.state.Completed?
  }

  predicate Fresh(claim: Option<Claim>, now: int) {
    claim.Some? && 0 <= now - claim.value.at < CLAIM_TTL
  }

  predicate StaleError(job: Job, cal: Calendar, now: int) {
    && job.lastStatus == Some(RunError)
    && !Fresh(job.claim, now)
    && job.lastRunAt.Some?
    && var age := now - job.lastRunAt.value;
       var grace := CatchupGrace(job.schedule, cal, now);
       var cadence := Cadence(job.schedule, cal, now);
       age >= 0 && age > (if cadence.Some? then cadence.value else grace) + grace
  }

  /** A wedged recurring job parked in the future is pulled back. */
  function Rearmed(job: Job, cal: Calendar, now: int): Job
    requires job.nextRunAt.Some?
  {
    if job.nextRunAt.value > now && StaleError(job, cal, now) then
      var recovered := if job.schedule.Interval? then Some(now) else ComputeNextRun(job.schedule, cal, now, None);
      if recovered.Some? && recovered.value < job.nextRunAt.value then job.(nextRunAt := recovered) else job
    else job
  }

  /** The due computation for one record. */
  function Due(job: Job, cal: Calendar, now: int): (Job, Option<DueJob>) {
    if !Runnable(job) || job.nextRunAt.None? then (job, None)
    else if job.schedule.Once? then
      if job.lastRunAt.Some? then (job, None)
      else if job.schedule.runAt < now - ONESHOT_GRACE && job.nextRunAt.value <= now then
        (job.(enabled := false, state := Completed), None)
      else (job, Some(DueJob(job, false)))
    else
      var armed := Rearmed(job, cal, now);
      if armed.nextRunAt.value > now then (armed, None)
      else if now - armed.nextRunAt.value > CatchupGrace(job.schedule, cal, now) then
        var next := ComputeNextRun(job.schedule, cal, now, None);
        if next.Some? then
          var forwarded := armed.(nextRunAt := next);
          (forwarded, Some(DueJob(forwarded, true)))
        else (armed, Some(DueJob(armed, false)))
      else (armed, Some(DueJob(armed, false)))
  }

  /** The slot a due record fires for: what was parked, after any re-arm and before fast-forward. */
  function SlotOf(job: Job, cal: Calendar, now: int): int
    requires job.nextRunAt.Some?
  {
    if job.schedule.Once? then job.nextRunAt.value else Rearmed(job, cal, now).nextRunAt.value
  }

  function AdvanceJob(job: Job, cal: Calendar, now: int): Job {
    if job.schedule.Once? then job else
    var next := ComputeNextRun(job.schedule, cal, now, None);
    if next.Some? then job.(nextRunAt := next) else job
  }

  predicate Claimable(job: Job, now: int) {
    Runnable(job) && !Fresh(job.claim, now)
  }

  function ClaimJob(job: Job, cal: Calendar, now: int, token: nat): Job {
    if Claimable(job, now) then AdvanceJob(job.(claim := Some(Claim(now, token))), cal, now) else job
  }

  predicate Holds(job: Job, owner: nat) {
    job.claim.Some? && job.claim.value.owner == owner
  }

  predicate CanHeartbeat(job: Job, owner: nat, now: int) {
    Holds(job, owner) && Fresh(job.claim, now)
  }

  function HeartbeatJob(job: Job, owner: nat, now: int): Job {
    if CanHeartbeat(job, owner, now) then job.(claim := Some(Claim(now, owner))) else job
  }

  function ClearJob(job: Job, owner: nat): Job {
    if Holds(job, owner) then job.(claim := None) else job
  }

  predicate CanMark(job: Job, owner: Option<nat>) {
    owner.Some? ==> Holds(job, owner.value)
  }

  function MarkJob(job: Job, cal: Calendar, owner: Option<nat>, now: int, success: bool, status: Option<Status>): Job {
    if !CanMark(job, owner) then job else
    var next := ComputeNextRun(job.schedule, cal, now, Some(now));
    var marked := job.(
      lastRunAt := Some(now),
      lastStatus := Some(if status.Some? then status.value else if success then RunOk else RunError),
      failureStreak := if success then 0 else job.failureStreak + 1,
      claim := None,
      nextRunAt := next);
    if next.None? then
      if job.schedule.Once? then marked.(enabled := false, state := Completed) else marked.(state := Errored)
    else if job.state.Paused? then marked else marked.(state := Scheduled)
  }

  function PauseJob(job: Job): Job {
    job.(enabled := false, state := Paused)
  }

  /** Resuming a one-shot past its grace is refused and leaves the table alone. */
  function ResumeJob(job: Job, cal: Calendar, now: int): Job {
    var next := ComputeNextRun(job.schedule, cal, now, None);
    if next.None? && job.schedule.Once? then job
    else job.(enabled := true, state := Scheduled, nextRunAt := next)
  }

  /** So is rescheduling to a one-shot past its grace, unless the job is paused. */
  function UpdateJob(job: Job, cal: Calendar, sch: Schedule, now: int): Job {
    var next := ComputeNextRun(sch, cal, now, None);
    if sch.Once? && next.None? && !job.state.Paused? then job
    else job.(schedule := sch, nextRunAt := next)
  }

  function NewJob(id: string, cal: Calendar, sch: Schedule, now: int): Option<Job> {
    var next := ComputeNextRun(sch, cal, now, None);
    if sch.Once? && next.None? then None
    else Some(Job(id, sch, true, Scheduled, next, None, None, None, 0))
  }

  /** Everything that can happen to one record. */
  datatype Op =
    | GetDue
    | Advance
    | MakeClaim(token: nat)
    | Heartbeat(owner: nat)
    | Clear(owner: nat)
    | Mark(expected: Option<nat>, success: bool, status: Option<Status>)
    | Pause
    | Resume
    | Update(sch: Schedule)

  function Do(job: Job, cal: Calendar, op: Op, now: int): Job {
    match op
    case GetDue => Due(job, cal, now).0
    case Advance => AdvanceJob(job, cal, now)
    case MakeClaim(token) => ClaimJob(job, cal, now, token)
    case Heartbeat(owner) => HeartbeatJob(job, owner, now)
    case Clear(owner) => ClearJob(job, owner)
    case Mark(expected, success, status) => MarkJob(job, cal, expected, now, success, status)
    case Pause => PauseJob(job)
    case Resume => ResumeJob(job, cal, now)
    case Update(sch) => UpdateJob(job, cal, sch, now)
  }

  // ----- every stored next run of a cron job is a legal, later fire time ---------------

  predicate LegalNext(job: Job, cal: Calendar) {
    job.schedule.Cron? && job.nextRunAt.Some? ==>
      LegalFire(job.schedule.expr, cal, job.nextRunAt.value)
  }

  /**
   A change of record that leaves the next run alone, computes it from the schedule at `now`, for
   a job not run yet or run just now, or pulls a wedged interval job back to `now`.
  */
  predicate Recomputes(job: Job, cal: Calendar, after: Job, now: int) {
    || (after.nextRunAt == job.nextRunAt && after.schedule == job.schedule)
    || after.nextRunAt == ComputeNextRun(after.schedule, cal, now, None)
    || after.nextRunAt == ComputeNextRun(after.schedule, cal, now, Some(now))
    || (after.schedule == job.schedule && job.schedule.Interval? && after.nextRunAt == Some(now))
  }

  lemma EveryWriterRecomputes(job: Job, cal: Calendar, op: Op, now: int)
    ensures Recomputes(job, cal, Do(job, cal, op, now), now)
  {
    match op
    case GetDue =>
    case Mark(_, _, _) =>
    case _ =>
  }

  /** Whatever writes `next_run_at` of a cron job writes a matching minute after the writing instant. */
  lemma WritersAreLegal(job: Job, cal: Calendar, op: Op, now: int, after: Job)
    requires LegalNext(job, cal) && after == Do(job, cal, op, now)
    ensures LegalNext(after, cal)
    ensures after.schedule.Cron? && after.nextRunAt.Some? && after.nextRunAt != job.nextRunAt ==>
              after.nextRunAt.value > now
  {
    EveryWriterRecomputes(job, cal, op, now);
    if after.schedule.Cron? {
      CronNextIsLegal(after.schedule.expr, cal, now);
    }
  }

  lemma NewJobsAreLegal(id: string, cal: Calendar, sch: Schedule, now: int)
    ensures var r := NewJob(id, cal, sch, now);
            && (r.Some? ==> LegalNext(r.value, cal))
            && (r.Some? && sch.Cron? && r.value.nextRunAt.Some? ==> r.value.nextRunAt.value > now)
            && (r.None? <==> sch.Once? && sch.runAt < now - ONESHOT_GRACE)
  {
    if sch.Cron? {
      CronNextIsLegal(sch.expr, cal, now);
    }
  }
}
