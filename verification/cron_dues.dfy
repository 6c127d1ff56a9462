/** When a job fires: what a tick lists, from the creation of the job on. */
module CronDues {
  import opened CronRuns
  import opened CronSchedules
  import opened CronStore
  import opened Text

  // ----- one-shots ------------------------------------------------------------------------

  /** Some tick of the run listed the unmarked job after the grace past its time. */
  predicate AgedOut(w: World, cal: Calendar, run: seq<Label>, runAt: int)
    requires After(w, cal, run).Some?
  {
    run != [] &&
    var before, l := run[..|run| - 1], run[|run| - 1];
    var v := After(w, cal, before).value;
    AgedOut(w, cal, before, runAt) || ListsLate(v, l, runAt)
  }

  /** A one-shot as its creation leaves it, until it is marked or retired. */
  predicate Unfired(job: Job, id: string, runAt: int) {
    job == Job(id, Once(runAt), true, Scheduled, Some(runAt), None, None, job.claim, 0)
  }

  predicate Retired(job: Job) {
    job.state.Completed? && !job.enabled && job.schedule.Once?
  }

  function Birth(id: string, cal: Calendar, runAt: int, now: int): World
    requires NewJob(id, cal, Once(runAt), now).Some?
  {
    Start(NewJob(id, cal, Once(runAt), now).value, now)
  }

  /** A run without operators leads from the creation of a one-shot to this state. */
  predicate Leads(id: string, cal: Calendar, runAt: int, now: int, run: seq<Label>, w: World) {
    && NewJob(id, cal, Once(runAt), now).Some? && NoOperators(run)
    && After(Birth(id, cal, runAt, now), cal, run) == Some(w)
  }

  /** A one-shot from its creation at `now` on; `aged` says that a tick has listed it after its grace. */
  predicate OneShotState(w: World, id: string, runAt: int, now: int, aged: bool) {
    && now <= w.lastClaim <= w.clock
    && (w.tick.Listed? || w.tick.Advanced? ==> w.tick.slot == runAt)
    && if w.marks != 0 then Retired(w.job) && w.job.lastRunAt.Some?
       else if aged then Retired(w.job) && w.job.lastRunAt.None? && w.clock > runAt + ONESHOT_GRACE
       else Unfired(w.job, id, runAt)
  }

  predicate ListsLate(w: World, l: Label, runAt: int) {
    l.TickList? && w.marks == 0 && w.clock > runAt + ONESHOT_GRACE
  }

  lemma OneShotMarkStep(w: World, cal: Calendar, l: Label, id: string, runAt: int, now: int, aged: bool)
    requires OneShotState(w, id, runAt, now, aged) && Enabled(w, l) && l.TickMark?
    ensures OneShotState(Step(w, cal, l), id, runAt, now, aged)
  {
  }

  lemma OneShotTickStep(w: World, cal: Calendar, l: Label, id: string, runAt: int, now: int, aged: bool)
    requires OneShotState(w, id, runAt, now, aged) && Enabled(w, l) && !l.Operator? && !l.TickMark?
    ensures OneShotState(Step(w, cal, l), id, runAt, now, aged || ListsLate(w, l, runAt))
  {
  }

  lemma {:induction false} OneShotLife(id: string, cal: Calendar, runAt: int, now: int, run: seq<Label>, w: World)
    requires Leads(id, cal, runAt, now, run, w)
    ensures OneShotState(w, id, runAt, now, AgedOut(Birth(id, cal, runAt, now), cal, run, runAt))
  {
    if run == [] {
    } else {
      var before, l := run[..|run| - 1], run[|run| - 1];
      var start := Birth(id, cal, runAt, now);
      var v := After(start, cal, before).value;
      assert l in run && forall k | k in before :: k in run;
      OneShotLife(id, cal, runAt, now, before, v);
      if l.TickMark? {
        OneShotMarkStep(v, cal, l, id, runAt, now, AgedOut(start, cal, before, runAt));
      } else {
        OneShotTickStep(v, cal, l, id, runAt, now, AgedOut(start, cal, before, runAt));
      }
    }
  }

  /**
   Over every run without operators a one-shot is completed unmarked exactly when a tick listed it
   after its grace. Until then every tick that begins lists it, for its time, and changes nothing.
  */
  lemma OneShotIsDue(id: string, cal: Calendar, runAt: int, now: int, run: seq<Label>, w: World)
    requires Leads(id, cal, runAt, now, run, w) && w.marks == 0
    ensures w.job.state.Completed? <==> AgedOut(Birth(id, cal, runAt, now), cal, run, runAt)
    ensures !w.job.state.Completed? && w.tick.NoTick? ==>
              var listed := Step(w, cal, TickList);
              if w.clock <= runAt + ONESHOT_GRACE then listed == w.(tick := Listed(w.clock, runAt))
              else listed.tick.NoTick? && listed.job.state.Completed?
  {
    OneShotLife(id, cal, runAt, now, run, w);
  }

  /** Unless a claim stands, that tick can run the job and mark it, once and for all. */
  lemma OneShotCanFire(id: string, cal: Calendar, runAt: int, now: int, run: seq<Label>, w: World, success: bool)
    returns (longer: seq<Label>, v: World)
    requires Leads(id, cal, runAt, now, run, w)
    requires w.marks == 0 && !w.job.state.Completed? && w.tick.NoTick? && w.clock <= runAt + ONESHOT_GRACE
    requires !Fresh(w.job.claim, w.clock)
    ensures longer == run + [TickList] + [TickAdvance] + [TickClaim] + [TickMark(success, None, false)]
    ensures Leads(id, cal, runAt, now, longer, v)
    ensures v.marks == 1 && v.slots == w.slots + [runAt] && v.lastClaim == v.clock == w.clock && v.tick.NoTick?
    ensures v.job.lastRunAt == Some(w.clock) && v.job.state.Completed?
  {
    var start := Birth(id, cal, runAt, now);
    OneShotLife(id, cal, runAt, now, run, w);
    var listed := Step(w, cal, TickList);
    AfterAppend(start, cal, run, TickList);
    var advanced := Step(listed, cal, TickAdvance);
    AfterAppend(start, cal, run + [TickList], TickAdvance);
    var claimed := Step(advanced, cal, TickClaim);
    AfterAppend(start, cal, run + [TickList] + [TickAdvance], TickClaim);
    var mark := TickMark(success, None, false);
    v := Step(claimed, cal, mark);
    AfterAppend(start, cal, run + [TickList] + [TickAdvance] + [TickClaim], mark);
    longer := run + [TickList] + [TickAdvance] + [TickClaim] + [mark];
  }

  /** The job was claimed at an instant before its time. */
  ghost predicate FiresEarly(id: string, cal: Calendar, runAt: int, now: int, run: seq<Label>, w: World) {
    Leads(id, cal, runAt, now, run, w) && w.slots != [] && w.lastClaim < runAt
  }

  /** A one-shot can fire before its time exactly when it is created before its time. */
  lemma FiresEarlyExactly(id: string, cal: Calendar, runAt: int, now: int)
    ensures (exists run, w :: FiresEarly(id, cal, runAt, now, run, w)) <==> now < runAt
  {
    if now < runAt {
      var run, w := OneShotCanFire(id, cal, runAt, now, [], Birth(id, cal, runAt, now), true);
      assert FiresEarly(id, cal, runAt, now, run, w);
    } else {
      forall run, w ensures !FiresEarly(id, cal, runAt, now, run, w) {
        if Leads(id, cal, runAt, now, run, w) { OneShotLife(id, cal, runAt, now, run, w); }
      }
    }
  }

  /** A one-shot for the next hour is run and marked by a tick at its creation. */
  lemma AnHourEarly(id: string, cal: Calendar) returns (run: seq<Label>, w: World)
    ensures Leads(id, cal, HOUR, 0, run, w) && w.clock == 0 && w.marks == 1 && w.slots == [HOUR]
  {
    run, w := OneShotCanFire(id, cal, HOUR, 0, [], Birth(id, cal, HOUR, 0), true);
  }

  // ----- recurring jobs ---------------------------------------------------------------------

  /**
   A runnable recurring job is listed for its slot as soon as that is no later than the clock;
   before, only an interval job that is wedged is, for the present instant.
  */
  lemma RecurringIsDue(w: World, cal: Calendar, slot: int)
    requires w.tick.NoTick? && Recurs(w.job.schedule) && Runnable(w.job) && w.job.nextRunAt == Some(slot)
    ensures slot <= w.clock ==> Step(w, cal, TickList).tick == Listed(w.clock, slot)
    ensures slot > w.clock ==>
              Step(w, cal, TickList).tick
                == if w.job.schedule.Interval? && StaleError(w.job, cal, w.clock) then Listed(w.clock, w.clock) else NoTick
  {
    NextRunIsLater(w.job.schedule, cal, w.clock);
  }

  /** Listing moves the next run on exactly when the slot is older than the grace, and to a later instant. */
  lemma ListingFastForwards(w: World, cal: Calendar, slot: int)
    requires w.tick.NoTick? && Recurs(w.job.schedule) && Runnable(w.job) && w.job.nextRunAt == Some(slot) && slot <= w.clock
    ensures var after := Step(w, cal, TickList).job;
            && after == w.job.(nextRunAt := after.nextRunAt) && after.nextRunAt.Some?
            && (w.clock - slot <= CatchupGrace(w.job.schedule, cal, w.clock) ==> after == w.job)
            && (w.clock - slot > CatchupGrace(w.job.schedule, cal, w.clock) ==>
                  if ComputeNextRun(w.job.schedule, cal, w.clock, None).Some?
                  then after.nextRunAt == ComputeNextRun(w.job.schedule, cal, w.clock, None) && after.nextRunAt.value > w.clock
                  else after == w.job)
  {
    NextRunIsLater(w.job.schedule, cal, w.clock);
  }

  /** A wedged interval job: it failed, nobody holds it, and a period and the grace have gone by since. */
  lemma WedgedInterval(job: Job, cal: Calendar, now: int)
    requires job.schedule.Interval? && job.schedule.minutes >= 1
    ensures StaleError(job, cal, now)
       <==> && job.lastStatus == Some(RunError) && job.lastRunAt.Some?
            && !(job.claim.Some? && job.claim.value.at <= now < job.claim.value.at + 300_000)
            && now - job.lastRunAt.value
                 > job.schedule.minutes * 60_000
                   + (if job.schedule.minutes < 4 then 120_000
                      else if job.schedule.minutes > 240 then 7_200_000 else job.schedule.minutes * 30_000)
  {
  }
}
