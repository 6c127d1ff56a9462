/**
 One execution of a due job among other processes (src/pi_embedded/cron/scheduler.ts): between
 any two of its store operations the jobs file may change, and a store operation may throw.
*/
module CronCourses {
  import opened CronJobTable
  import opened CronSchedules
  import opened CronStore
  import opened Text

  /** What another process, or an operator, does to the jobs file. */
  datatype Act = Acts(id: string, op: Op, at: int) | Removes(id: string) | Adds(job: Job)

  function Changed(jobs: seq<Job>, cal: Calendar, act: Act): seq<Job> {
    match act
    case Acts(id, op, at) => DoAt(jobs, id, cal, op, at)
    case Removes(id) => WithoutId(jobs, id)
    case Adds(job) => jobs + [job]
  }

  function Meanwhile(jobs: seq<Job>, cal: Calendar, acts: seq<Act>): seq<Job> {
    if acts == [] then jobs else Changed(Meanwhile(jobs, cal, acts[..|acts| - 1]), cal, acts[|acts| - 1])
  }

  /** A heartbeat, after whatever others did since the last; one that throws is taken for alive. */
  datatype Beat = Beat(others: seq<Act>, at: int, throws: bool)

  /** The claim, the heartbeats, and the end of the runner, which settles or rejects. */
  datatype Course = Course(
    before: seq<Act>, claimAt: int,
    beats: seq<Beat>,
    rejects: bool, success: bool,
    after: seq<Act>, markAt: int,
    markThrows: bool, errorMarkThrows: bool)

  datatype Report = ClaimLostBeforeStart | ClaimLost | StaleMarkDiscarded | Finished(success: bool) | Failed

  /** Whether the report claims that the run wrote its results. */
  predicate SaysWritten(report: Report) { report.Finished? || report.Failed? }

  /** The table holds the claim as it was made or renewed within its time to live. */
  predicate ClaimStands(jobs: seq<Job>, id: string, owner: nat, now: int) {
    var i := IndexOfJob(jobs, id);
    i.Some? && CanHeartbeat(jobs[i.value], owner, now)
  }

  /** A mark with this token would be accepted: the job is there, and the claim is still its own. */
  predicate Accepts(jobs: seq<Job>, id: string, owner: nat) {
    var i := IndexOfJob(jobs, id);
    i.Some? && CanMark(jobs[i.value], Some(owner))
  }

  /** Heartbeats up to the first that finds the claim lost. */
  function Watched(jobs: seq<Job>, cal: Calendar, id: string, owner: nat, beats: seq<Beat>): (seq<Job>, bool)
    decreases |beats|
  {
    if beats == [] then (jobs, true) else
    var seen := Meanwhile(jobs, cal, beats[0].others);
    if beats[0].throws then Watched(seen, cal, id, owner, beats[1..])
    else if !ClaimStands(seen, id, owner, beats[0].at) then (seen, false)
    else Watched(DoAt(seen, id, cal, Heartbeat(owner), beats[0].at), cal, id, owner, beats[1..])
  }

  /** The table as the end of the run finds it, and whether no heartbeat found the claim lost. */
  function Settled(jobs: seq<Job>, cal: Calendar, id: string, owner: nat, c: Course): (seq<Job>, bool) {
    var (watched, alive) := Watched(jobs, cal, id, owner, c.beats);
    (Meanwhile(watched, cal, c.after), alive)
  }

  function Marked(jobs: seq<Job>, cal: Calendar, id: string, owner: nat, success: bool, at: int): seq<Job> {
    DoAt(jobs, id, cal, Mark(Some(owner), success, None), at)
  }

  /** The run goes down the error path: its runner rejected, or its mark threw. */
  predicate Errs(c: Course, alive: bool) {
    c.rejects || (alive && c.markThrows)
  }

  /** A claimed job to the end of its run. */
  function Ended(jobs: seq<Job>, cal: Calendar, id: string, owner: nat, c: Course): (seq<Job>, Report) {
    var (last, alive) := Settled(jobs, cal, id, owner, c);
    if Errs(c, alive) then
      (if c.errorMarkThrows then last else Marked(last, cal, id, owner, false, c.markAt), Failed)
    else if !alive then (last, ClaimLost)
    else if !Accepts(last, id, owner) then (last, StaleMarkDiscarded)
    else (Marked(last, cal, id, owner, c.success, c.markAt), Finished(c.success))
  }

  /** One due job, from the claim on. */
  function CourseOf(jobs: seq<Job>, cal: Calendar, token: nat, id: string, c: Course): (seq<Job>, Report) {
    var seen := Meanwhile(jobs, cal, c.before);
    var i := IndexOfJob(seen, id);
    if i.None? || !Claimable(seen[i.value], c.claimAt) then (seen, ClaimLostBeforeStart)
    else Ended(DoAt(seen, id, cal, MakeClaim(token), c.claimAt), cal, id, token, c)
  }

  // ----- what the report is worth ---------------------------------------------------------

  /** A mark changes the table exactly when it is accepted, and then it stamps and releases the job. */
  lemma MarkedMeans(jobs: seq<Job>, cal: Calendar, id: string, owner: nat, success: bool, at: int)
    ensures var after := Marked(jobs, cal, id, owner, success, at);
            && (after != jobs <==> Accepts(jobs, id, owner))
            && (Accepts(jobs, id, owner) ==>
                  var i := IndexOfJob(jobs, id).value;
                  && after == jobs[i := after[i]] && after[i].id == id
                  && after[i].lastRunAt == Some(at) && after[i].claim.None?
                  && after[i].lastStatus == Some(if success then RunOk else RunError))
  {
    var i, after := IndexOfJob(jobs, id), Marked(jobs, cal, id, owner, success, at);
    if i.Some? {
      if CanMark(jobs[i.value], Some(owner)) {
        assert jobs[i.value].claim.Some? && after[i.value].claim.None?;
      } else {
        assert after == jobs;
      }
    }
  }

  /**
   Whatever others do in between: a run reports written results and has written none exactly when
   it went down the error path and its error mark threw or was refused, because the job was gone
   or its claim was no longer the run's own. Every other report is true.
  */
  lemma WrittenExactly(jobs: seq<Job>, cal: Calendar, id: string, owner: nat, c: Course)
    ensures var (last, alive) := Settled(jobs, cal, id, owner, c);
            var (after, report) := Ended(jobs, cal, id, owner, c);
            && (SaysWritten(report) && after == last
                <==> Errs(c, alive) && (c.errorMarkThrows || !Accepts(last, id, owner)))
            && (after != last ==>
                  && SaysWritten(report) && Accepts(last, id, owner)
                  && after == Marked(last, cal, id, owner, report == Finished(true), c.markAt))
  {
    var last := Settled(jobs, cal, id, owner, c).0;
    MarkedMeans(last, cal, id, owner, false, c.markAt);
    MarkedMeans(last, cal, id, owner, c.success, c.markAt);
  }

  /** Heartbeats that throw neither renew the claim nor find it lost. */
  lemma {:induction false} ThrowingBeats(jobs: seq<Job>, cal: Calendar, id: string, owner: nat, beats: seq<Beat>)
    requires forall b | b in beats :: b.throws && b.others == []
    ensures Watched(jobs, cal, id, owner, beats) == (jobs, true)
    decreases |beats|
  {
    if beats == [] {
    } else {
      assert beats[0] in beats && forall b | b in beats[1..] :: b in beats;
      ThrowingBeats(jobs, cal, id, owner, beats[1..]);
    }
  }

  // ----- two courses that report what they did not write -----------------------------------

  const NO_CALENDAR: Calendar := day => Civil(1, 1)
  const HOURLY := Job("job", Interval(60), true, Scheduled, Some(HOUR), None, None, None, 0)

  lemma HourlyIsNew()
    ensures NewJob("job", NO_CALENDAR, Interval(60), 0) == Some(HOURLY)
  {
  }

  function RejectsAfter(act: Act): Course {
    Course([], 0, [], true, false, [act], CLAIM_TTL, false, false)
  }

  lemma OneRecord(job: Job, cal: Calendar, op: Op, at: int)
    ensures IndexOfJob([job], job.id) == Some(0) && DoAt([job], job.id, cal, op, at) == [Do(job, cal, op, at)]
  {
  }

  lemma OneAct(jobs: seq<Job>, cal: Calendar, act: Act)
    ensures Meanwhile(jobs, cal, []) == jobs && Meanwhile(jobs, cal, [act]) == Changed(jobs, cal, act)
  {
    assert [act][..0] == [];
  }

  /** The course of a job alone in its table, whose runner rejects after one act of somebody else. */
  lemma OneJobRejects(job: Job, cal: Calendar, token: nat, act: Act)
    requires Claimable(job, 0)
    ensures var last := Changed([ClaimJob(job, cal, 0, token)], cal, act);
            CourseOf([job], cal, token, job.id, RejectsAfter(act))
              == (Marked(last, cal, job.id, token, false, CLAIM_TTL), Failed)
  {
    OneRecord(job, cal, MakeClaim(token), 0);
    OneAct([job], cal, act);
    OneAct([ClaimJob(job, cal, 0, token)], cal, act);
  }

  /** Another process takes the expired claim; the runner then rejects. */
  lemma ClaimTaken()
    ensures var (after, report) := CourseOf([HOURLY], NO_CALENDAR, 0, "job", RejectsAfter(Acts("job", MakeClaim(1), CLAIM_TTL)));
            && SaysWritten(report)
            && |after| == 1 && Holds(after[0], 1) && after[0].lastRunAt.None?
  {
    var mine := ClaimJob(HOURLY, NO_CALENDAR, 0, 0);
    var other := ClaimJob(mine, NO_CALENDAR, CLAIM_TTL, 1);
    OneJobRejects(HOURLY, NO_CALENDAR, 0, Acts("job", MakeClaim(1), CLAIM_TTL));
    OneRecord(mine, NO_CALENDAR, MakeClaim(1), CLAIM_TTL);
    OneRecord(other, NO_CALENDAR, Mark(Some(0), false, None), CLAIM_TTL);
  }

  /** The job is removed while it runs; the runner then rejects. */
  lemma JobRemoved()
    ensures CourseOf([HOURLY], NO_CALENDAR, 0, "job", RejectsAfter(Removes("job"))) == ([], Failed)
  {
    var mine := ClaimJob(HOURLY, NO_CALENDAR, 0, 0);
    OneJobRejects(HOURLY, NO_CALENDAR, 0, Removes("job"));
    assert [mine][..0] == [] && WithoutId([mine], "job") == [];
  }
}
