/** The job table object of src/pi_embedded/cron/store.ts, its records changed in place. */
module CronJobTable {
  import opened Text
  import opened CronSchedules
  import opened CronStore

  function IndexOfJob(jobs: seq<Job>, id: string): (i: Option<nat>)
    ensures i.Some? ==> i.value < |jobs| && jobs[i.value].id == id
    ensures forall k | 0 <= k < (if i.Some? then i.value else |jobs|) :: jobs[k].id != id
  {
    if jobs == [] then None
    else if jobs[0].id == id then Some(0)
    else var rest := IndexOfJob(jobs[1..], id);
         if rest.Some? then Some(rest.value + 1) else None
  }

  /** The table after one operation on the first record with this id. */
  function DoAt(jobs: seq<Job>, id: string, cal: Calendar, op: Op, now: int): seq<Job> {
    var i := IndexOfJob(jobs, id);
    if i.None? then jobs else jobs[i.value := Do(jobs[i.value], cal, op, now)]
  }

  function DueTable(jobs: seq<Job>, cal: Calendar, now: int): (r: seq<Job>)
    ensures |r| == |jobs| && forall i | 0 <= i < |jobs| :: r[i] == Do(jobs[i], cal, GetDue, now)
  {
    seq(|jobs|, i requires 0 <= i < |jobs| => Do(jobs[i], cal, GetDue, now))
  }

  function DueList(jobs: seq<Job>, cal: Calendar, now: int): seq<DueJob> {
    if jobs == [] then [] else
    var due := Due(jobs[|jobs| - 1], cal, now).1;
    DueList(jobs[..|jobs| - 1], cal, now) + (if due.Some? then [due.value] else [])
  }

  function AdvanceTable(jobs: seq<Job>, ids: set<string>, cal: Calendar, now: int): (r: seq<Job>)
    ensures |r| == |jobs|
    ensures forall i | 0 <= i < |jobs| ::
              r[i] == if jobs[i].id in ids then Do(jobs[i], cal, Advance, now) else jobs[i]
  {
    seq(|jobs|, i requires 0 <= i < |jobs| =>
      if jobs[i].id in ids then AdvanceJob(jobs[i], cal, now) else jobs[i])
  }

  /** How many records an advance gives a next run. */
  function Moved(jobs: seq<Job>, ids: set<string>, cal: Calendar, now: int): nat {
    if jobs == [] then 0 else
    var last := jobs[|jobs| - 1];
    Moved(jobs[..|jobs| - 1], ids, cal, now) + (if Moves(last, ids, cal, now) then 1 else 0)
  }

  predicate Moves(job: Job, ids: set<string>, cal: Calendar, now: int) {
    job.id in ids && !job.schedule.Once? && ComputeNextRun(job.schedule, cal, now, None).Some?
  }

  /** The records an advance moves: listed, recurring, and with a next run. */
  function MovedPlaces(jobs: seq<Job>, ids: set<string>, cal: Calendar, now: int): set<nat> {
    set i: nat | i < |jobs| && jobs[i].id in ids && !jobs[i].schedule.Once?
                 && ComputeNextRun(jobs[i].schedule, cal, now, None).Some?
  }

  /** The count that an advance returns is the number of records it moved. */
  lemma {:induction false} MovedCounts(jobs: seq<Job>, ids: set<string>, cal: Calendar, now: int)
    ensures Moved(jobs, ids, cal, now) == |MovedPlaces(jobs, ids, cal, now)|
  {
    if jobs == [] {
      assert MovedPlaces(jobs, ids, cal, now) == {};
    } else {
      var n := |jobs| - 1;
      var before, all := MovedPlaces(jobs[..n], ids, cal, now), MovedPlaces(jobs, ids, cal, now);
      MovedCounts(jobs[..n], ids, cal, now);
      assert forall i: nat | i < n :: jobs[..n][i] == jobs[i];
      assert all == before + if n in all then {n} else {};
      assert n !in before;
    }
  }

  lemma MovedOne(jobs: seq<Job>, ids: set<string>, cal: Calendar, now: int, i: nat)
    requires i < |jobs|
    ensures Moved(jobs[..i + 1], ids, cal, now)
         == Moved(jobs[..i], ids, cal, now) + if Moves(jobs[i], ids, cal, now) then 1 else 0
  {
    assert jobs[..i + 1][..i] == jobs[..i];
  }

  function WithoutId(jobs: seq<Job>, id: string): seq<Job> {
    if jobs == [] then [] else
    var last := jobs[|jobs| - 1];
    WithoutId(jobs[..|jobs| - 1], id) + (if last.id == id then [] else [last])
  }

  predicate HasJob(jobs: seq<Job>, id: string) {
    exists i | 0 <= i < |jobs| :: jobs[i].id == id
  }

  lemma HasJobAppend(jobs: seq<Job>, job: Job, id: string)
    ensures HasJob(jobs + [job], id) <==> HasJob(jobs, id) || job.id == id
  {
    var all := jobs + [job];
    assert all[|jobs|] == job;
    assert forall i | 0 <= i < |jobs| :: all[i] == jobs[i];
  }

  lemma WithoutIdAppend(jobs: seq<Job>, job: Job, id: string)
    ensures WithoutId(jobs + [job], id) == WithoutId(jobs, id) + if job.id == id then [] else [job]
  {
    assert (jobs + [job])[..|jobs|] == jobs;
  }

  /** Removing an id shortens the table exactly when it was there. */
  lemma {:induction false} WithoutIdShrinks(jobs: seq<Job>, id: string)
    ensures |WithoutId(jobs, id)| <= |jobs|
    ensures |WithoutId(jobs, id)| < |jobs| <==> HasJob(jobs, id)
    ensures |WithoutId(jobs, id)| == |jobs| ==> WithoutId(jobs, id) == jobs
  {
    if jobs == [] {
    } else {
      var init, last := jobs[..|jobs| - 1], jobs[|jobs| - 1];
      WithoutIdShrinks(init, id);
      assert jobs == init + [last];
      HasJobAppend(init, last, id);
      WithoutIdAppend(init, last, id);
    }
  }

  class CronJobStore {
    const cal: Calendar
    var jobs: seq<Job>
    var nextToken: nat

    constructor (cal: Calendar)
      ensures this.cal == cal && jobs == [] && nextToken == 0
    {
      this.cal := cal;
      jobs := [];
      nextToken := 0;
    }

    /** Adds a record, unless a one-shot is already past its grace. */
    method CreateJob(id: string, sch: Schedule, now: int) returns (r: Option<Job>)
      modifies this`jobs
      ensures r == NewJob(id, cal, sch, now)
      ensures jobs == if r.Some? then old(jobs) + [r.value] else old(jobs)
    {
      var next := ComputeNextRun(sch, cal, now, None);
      if sch.Once? && next.None? { return None; }
      var record := Job(id, sch, true, Scheduled, next, None, None, None, 0);
      jobs := jobs + [record];
      r := Some(record);
    }

    method RemoveJob(id: string) returns (removed: bool)
      modifies this`jobs
      ensures jobs == WithoutId(old(jobs), id)
      ensures removed <==> HasJob(old(jobs), id)
    {
      var kept: seq<Job> := [];
      for i := 0 to |jobs|
        invariant kept == WithoutId(jobs[..i], id)
      {
        assert jobs[..i + 1][..i] == jobs[..i];
        if jobs[i].id != id {
          kept := kept + [jobs[i]];
        }
      }
      assert jobs[..|jobs|] == jobs;
      WithoutIdShrinks(jobs, id);
      if |kept| == |jobs| { return false; }
      jobs := kept;
      removed := true;
    }

    method PauseJobById(id: string, now: int) returns (found: bool)
      modifies this`jobs
      ensures jobs == DoAt(old(jobs), id, cal, Pause, now) && (found <==> IndexOfJob(old(jobs), id).Some?)
    {
      var i := IndexOfJob(jobs, id);
      if i.None? { return false; }
      jobs := jobs[i.value := jobs[i.value].(enabled := false, state := Paused)];
      found := true;
    }

    /** `refused` stands for the grace error, which leaves the file as it was. */
    method ResumeJobById(id: string, now: int) returns (found: bool, refused: bool)
      modifies this`jobs
      ensures jobs == DoAt(old(jobs), id, cal, Resume, now) && (found <==> IndexOfJob(old(jobs), id).Some?)
      ensures refused
         <==> found && var job := old(jobs)[IndexOfJob(old(jobs), id).value];
              job.schedule.Once? && ComputeNextRun(job.schedule, cal, now, None).None?
      ensures refused ==> jobs == old(jobs)
    {
      var i := IndexOfJob(jobs, id);
      if i.None? { return false, false; }
      var job := jobs[i.value];
      var next := ComputeNextRun(job.schedule, cal, now, None);
      if next.None? && job.schedule.Once? { return true, true; }
      jobs := jobs[i.value := job.(enabled := true, state := Scheduled, nextRunAt := next)];
      return true, false;
    }

    method Reschedule(id: string, sch: Schedule, now: int) returns (found: bool, refused: bool)
      modifies this`jobs
      ensures jobs == DoAt(old(jobs), id, cal, Update(sch), now) && (found <==> IndexOfJob(old(jobs), id).Some?)
      ensures refused
         <==> found && sch.Once? && ComputeNextRun(sch, cal, now, None).None?
              && !old(jobs)[IndexOfJob(old(jobs), id).value].state.Paused?
      ensures refused ==> jobs == old(jobs)
    {
      var i := IndexOfJob(jobs, id);
      if i.None? { return false, false; }
      var job := jobs[i.value];
      var next := ComputeNextRun(sch, cal, now, None);
      if sch.Once? && next.None? && !job.state.Paused? { return true, true; }
      jobs := jobs[i.value := job.(schedule := sch, nextRunAt := next)];
      return true, false;
    }

    /** The body of the due loop for the record at `i`. */
    method VisitDue(i: nat, now: int) returns (due: Option<DueJob>)
      requires i < |jobs|
      modifies this`jobs
      ensures jobs == old(jobs)[i := Due(old(jobs)[i], cal, now).0]
      ensures due == Due(old(jobs)[i], cal, now).1
    {
      var job := jobs[i];
      if !Runnable(job) || job.nextRunAt.None? { return None; }
      if job.schedule.Once? {
        if job.lastRunAt.Some? { return None; }
        if job.schedule.runAt < now - ONESHOT_GRACE && job.nextRunAt.value <= now {
          jobs := jobs[i := job.(enabled := false, state := Completed)];
          return None;
        }
        return Some(DueJob(job, false));
      }
      job := Rearmed(job, cal, now);
      jobs := jobs[i := job];
      if job.nextRunAt.value > now { return None; }
      if now - job.nextRunAt.value > CatchupGrace(job.schedule, cal, now) {
        var next := ComputeNextRun(job.schedule, cal, now, None);
        if next.Some? {
          job := job.(nextRunAt := next);
          jobs := jobs[i := job];
          return Some(DueJob(job, true));
        }
      }
      return Some(DueJob(job, false));
    }

    /** One pass over the table: records are re-armed, fast-forwarded or retired, and due ones listed. */
    method GetDueJobs(now: int) returns (due: seq<DueJob>)
      modifies this`jobs
      ensures jobs == DueTable(old(jobs), cal, now)
      ensures due == DueList(old(jobs), cal, now)
    {
      ghost var was := jobs;
      due := [];
      for i := 0 to |jobs|
        invariant |jobs| == |was| && jobs[i..] == was[i..]
        invariant forall k | 0 <= k < i :: jobs[k] == Do(was[k], cal, GetDue, now)
        invariant due == DueList(was[..i], cal, now)
      {
        assert was[..i + 1][..i] == was[..i];
        assert jobs[i] == was[i];
        var entry := VisitDue(i, now);
        if entry.Some? {
          due := due + [entry.value];
        }
      }
      assert was[..|was|] == was;
    }

    method AdvanceNextRuns(ids: set<string>, now: int) returns (advanced: nat)
      modifies this`jobs
      ensures jobs == AdvanceTable(old(jobs), ids, cal, now)
      ensures advanced == Moved(old(jobs), ids, cal, now)
    {
      ghost var was := jobs;
      advanced := 0;
      for i := 0 to |jobs|
        invariant |jobs| == |was| && jobs[i..] == was[i..] && advanced == Moved(was[..i], ids, cal, now)
        invariant forall k | 0 <= k < i :: jobs[k] == AdvanceTable(was, ids, cal, now)[k]
      {
        var job := jobs[i];
        assert job == was[i];
        MovedOne(was, ids, cal, now, i);
        if job.id in ids && !job.schedule.Once? {
          var next := ComputeNextRun(job.schedule, cal, now, None);
          if next.Some? {
            jobs := jobs[i := job.(nextRunAt := next)];
            advanced := advanced + 1;
          }
        }
      }
      assert was[..|was|] == was;
    }

    /** The claimed record, or None when the job is missing, not runnable or freshly claimed. */
    method ClaimJobForFire(id: string, now: int) returns (r: Option<Job>)
      modifies this`jobs, this`nextToken
      ensures jobs == DoAt(old(jobs), id, cal, MakeClaim(old(nextToken)), now)
      ensures var i := IndexOfJob(old(jobs), id);
              r == if i.Some? && Claimable(old(jobs)[i.value], now) then Some(jobs[i.value]) else None
      ensures nextToken == old(nextToken) + if r.Some? then 1 else 0
    {
      var i := IndexOfJob(jobs, id);
      if i.None? || !Runnable(jobs[i.value]) { return None; }
      var job := jobs[i.value];
      if job.claim.Some? && 0 <= now - job.claim.value.at && now - job.claim.value.at < CLAIM_TTL { return None; }
      job := job.(claim := Some(Claim(now, nextToken)));
      nextToken := nextToken + 1;
      if !job.schedule.Once? {
        var next := ComputeNextRun(job.schedule, cal, now, None);
        if next.Some? {
          job := job.(nextRunAt := next);
        }
      }
      jobs := jobs[i.value := job];
      r := Some(job);
    }

    method HeartbeatRunClaim(id: string, owner: nat, now: int) returns (alive: bool)
      modifies this`jobs
      ensures jobs == DoAt(old(jobs), id, cal, Heartbeat(owner), now)
      ensures var i := IndexOfJob(old(jobs), id);
              alive <==> i.Some? && CanHeartbeat(old(jobs)[i.value], owner, now)
    {
      var i := IndexOfJob(jobs, id);
      if i.None? || jobs[i.value].claim.None? || jobs[i.value].claim.value.owner != owner { return false; }
      var age := now - jobs[i.value].claim.value.at;
      if age < 0 || age >= CLAIM_TTL { return false; }
      jobs := jobs[i.value := jobs[i.value].(claim := Some(Claim(now, owner)))];
      alive := true;
    }

    method ClearRunClaim(id: string, owner: nat) returns (cleared: bool)
      modifies this`jobs
      ensures jobs == DoAt(old(jobs), id, cal, Clear(owner), 0)
      ensures var i := IndexOfJob(old(jobs), id);
              cleared <==> i.Some? && Holds(old(jobs)[i.value], owner)
    {
      var i := IndexOfJob(jobs, id);
      if i.None? || jobs[i.value].claim.None? || jobs[i.value].claim.value.owner != owner { return false; }
      jobs := jobs[i.value := jobs[i.value].(claim := None)];
      cleared := true;
    }

    /** Records a finished run; a completion whose claim has moved on is discarded. */
    method MarkJobRun(id: string, success: bool, status: Option<Status>, expected: Option<nat>, now: int)
      returns (marked: bool)
      modifies this`jobs
      ensures jobs == DoAt(old(jobs), id, cal, Mark(expected, success, status), now)
      ensures var i := IndexOfJob(old(jobs), id);
              marked <==> i.Some? && CanMark(old(jobs)[i.value], expected)
    {
      var i := IndexOfJob(jobs, id);
      if i.None? { return false; }
      var job := jobs[i.value];
      if expected.Some? && (job.claim.None? || job.claim.value.owner != expected.value) { return false; }
      job := job.(lastRunAt := Some(now),
                  lastStatus := Some(if status.Some? then status.value else if success then RunOk else RunError),
                  failureStreak := if success then 0 else job.failureStreak + 1,
                  claim := None);
      var next := ComputeNextRun(job.schedule, cal, now, Some(now));
      job := job.(nextRunAt := next);
      if next.None? {
        if job.schedule.Once? {
          job := job.(enabled := false, state := Completed);
        } else {
          job := job.(state := Errored);
        }
      } else if !job.state.Paused? {
        job := job.(state := Scheduled);
      }
      jobs := jobs[i.value := job];
      marked := true;
    }
  }
}
