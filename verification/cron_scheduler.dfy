/**
 The scheduler's tick (src/pi_embedded/cron/scheduler.ts) over the job table object. Left alone,
 each job it touches goes through a run of the tick machine.
*/
module CronTicks {
  import opened CronCourses
  import opened CronJobTable
  import opened CronRuns
  import opened CronSchedules
  import opened CronStore
  import opened Sequences
  import opened Text

  /** One execution left alone: claim, heartbeats while it runs, and its end. */
  datatype Run = Run(claimAt: int, beats: seq<int>, rejects: bool, success: bool, markAt: int)

  type Runs = nat -> Run
  type Courses = nat -> Course

  // ----- one job ------------------------------------------------------------------------

  /** Heartbeats up to the first that finds the claim lost. */
  function Beats(job: Job, owner: nat, beats: seq<int>): (r: (Job, bool))
    ensures r.0.id == job.id
    decreases |beats|
  {
    if beats == [] then (job, true)
    else if !CanHeartbeat(job, owner, beats[0]) then (job, false)
    else Beats(HeartbeatJob(job, owner, beats[0]), owner, beats[1..])
  }

  /** A claimed record to the end of its run. */
  function Complete(job: Job, cal: Calendar, token: nat, run: Run): (r: (Job, Report))
    ensures r.0.id == job.id
  {
    var (beaten, alive) := Beats(job, token, run.beats);
    if run.rejects then (MarkJob(beaten, cal, Some(token), run.markAt, false, None), Failed)
    else if !alive then (beaten, ClaimLost)
    else if !CanMark(beaten, Some(token)) then (beaten, StaleMarkDiscarded)
    else (MarkJob(beaten, cal, Some(token), run.markAt, run.success, None), Finished(run.success))
  }

  function RunRecord(job: Job, cal: Calendar, token: nat, run: Run): (r: (Job, Report))
    ensures r.0.id == job.id
  {
    if !Claimable(job, run.claimAt) then (job, ClaimLostBeforeStart)
    else Complete(ClaimJob(job, cal, run.claimAt, token), cal, token, run)
  }

  lemma {:induction false} BeatsKeepTheClaim(job: Job, owner: nat, beats: seq<int>)
    requires Holds(job, owner)
    ensures Holds(Beats(job, owner, beats).0, owner)
    decreases |beats|
  {
    if beats == [] || !CanHeartbeat(job, owner, beats[0]) {
    } else {
      BeatsKeepTheClaim(HeartbeatJob(job, owner, beats[0]), owner, beats[1..]);
    }
  }

  /** Uninterrupted, a completion is never discarded: the run is marked unless a heartbeat came too late. */
  lemma CompletionIsMarked(job: Job, cal: Calendar, token: nat, run: Run)
    ensures RunRecord(job, cal, token, run).1 != StaleMarkDiscarded
    ensures SaysWritten(RunRecord(job, cal, token, run).1) ==>
              RunRecord(job, cal, token, run).0.lastRunAt == Some(run.markAt)
              && RunRecord(job, cal, token, run).0.claim.None?
  {
    if Claimable(job, run.claimAt) {
      BeatsKeepTheClaim(ClaimJob(job, cal, run.claimAt, token), token, run.beats);
    }
  }

  // ----- one job against the tick machine -------------------------------------------------

  predicate Ascending(from: int, times: seq<int>)
    decreases |times|
  {
    times == [] || (from <= times[0] && Ascending(times[0], times[1..]))
  }

  function Last(from: int, times: seq<int>): int {
    if times == [] then from else times[|times| - 1]
  }

  lemma {:induction false} LastIsLater(from: int, times: seq<int>)
    requires Ascending(from, times)
    ensures from <= Last(from, times) && (times != [] ==> times[0] <= Last(from, times))
    decreases |times|
  {
    if times == [] {
    } else {
      LastIsLater(times[0], times[1..]);
    }
  }

  /** A world at a given instant, reached from another by waiting. */
  lemma WaitUntil(w: World, cal: Calendar, run: seq<Label>, v: World, at: int) returns (longer: seq<Label>)
    requires After(w, cal, run) == Some(v) && v.clock <= at
    ensures After(w, cal, longer) == Some(v.(clock := at))
  {
    AfterAppend(w, cal, run, Wait(at - v.clock));
    longer := run + [Wait(at - v.clock)];
  }

  lemma {:induction false} BeatsAreSteps(w: World, cal: Calendar, run: seq<Label>, v: World, beats: seq<int>, rejects: bool)
    returns (longer: seq<Label>, u: World, alive: bool)
    requires After(w, cal, run) == Some(v) && v.tick.Running? && Ascending(v.clock, beats)
    ensures After(w, cal, longer) == Some(u)
    ensures (u.job, alive) == Beats(v.job, v.tick.token, beats)
    ensures alive || rejects ==> u == v.(job := u.job, clock := u.clock) && u.clock <= Last(v.clock, beats)
    ensures !alive && !rejects ==> u.tick.NoTick?
    decreases |beats|
  {
    if beats == [] {
      return run, v, true;
    }
    var waited := WaitUntil(w, cal, run, v, beats[0]);
    var at := v.(clock := beats[0]);
    AfterAppend(w, cal, waited, TickHeartbeat(rejects));
    var next := Step(at, cal, TickHeartbeat(rejects));
    longer, u, alive := waited + [TickHeartbeat(rejects)], next, false;
    if CanHeartbeat(v.job, v.tick.token, beats[0]) {
      longer, u, alive := BeatsAreSteps(w, cal, longer, next, beats[1..], rejects);
    } else {
      LastIsLater(v.clock, beats);
    }
  }

  /** The record of a due job after one tick. */
  function TickRecord(job: Job, cal: Calendar, now: int, token: nat, run: Run): Job {
    RunRecord(AdvanceJob(Due(job, cal, now).0, cal, now), cal, token, run).0
  }

  predicate InTime(now: int, run: Run) {
    now <= run.claimAt && Ascending(run.claimAt, run.beats) && Last(run.claimAt, run.beats) <= run.markAt
  }

  lemma TickBegins(w: World, cal: Calendar, at: int) returns (steps: seq<Label>, v: World)
    requires w.tick.NoTick? && Due(w.job, cal, w.clock).1.Some? && w.clock <= at
    ensures After(w, cal, steps) == Some(v) && v.clock == at && v.tick.Advanced? && v.nextToken == w.nextToken
    ensures v.job == AdvanceJob(Due(w.job, cal, w.clock).0, cal, w.clock)
  {
    AfterAppend(w, cal, [], TickList);
    var listed := Step(w, cal, TickList);
    AfterAppend(w, cal, [] + [TickList], TickAdvance);
    v := Step(listed, cal, TickAdvance);
    steps := WaitUntil(w, cal, [] + [TickList] + [TickAdvance], v, at);
    v := v.(clock := at);
  }

  /** What a tick does to a due job is a run of the tick machine, back to where a tick may start. */
  lemma TickIsARun(w: World, cal: Calendar, run: Run) returns (steps: seq<Label>, v: World)
    requires w.tick.NoTick? && Due(w.job, cal, w.clock).1.Some? && InTime(w.clock, run)
    ensures After(w, cal, steps) == Some(v) && v.tick.NoTick?
    ensures v.job == TickRecord(w.job, cal, w.clock, w.nextToken, run)
  {
    var ready: World;
    steps, ready := TickBegins(w, cal, run.claimAt);
    AfterAppend(w, cal, steps, TickClaim);
    v := Step(ready, cal, TickClaim);
    steps := steps + [TickClaim];
    if Claimable(ready.job, run.claimAt) {
      BeatsKeepTheClaim(v.job, v.tick.token, run.beats);
      var token := v.tick.token;
      var alive;
      steps, v, alive := BeatsAreSteps(w, cal, steps, v, run.beats, run.rejects);
      if alive || run.rejects {
        var mark := TickMark(run.success && !run.rejects, None, false);
        steps := WaitUntil(w, cal, steps, v, run.markAt);
        v := v.(clock := run.markAt);
        AfterAppend(w, cal, steps, mark);
        steps := steps + [mark];
        v := Step(v, cal, mark);
      }
    }
  }

  // ----- the whole table ---------------------------------------------------------------------

  predicate DistinctIds(jobs: seq<Job>) {
    forall i, j | 0 <= i < j < |jobs| :: jobs[i].id != jobs[j].id
  }

  /** The table and the report after one job was run; a job that is gone is not claimed. */
  function RunAt(jobs: seq<Job>, cal: Calendar, token: nat, id: string, run: Run): (seq<Job>, Report) {
    var i := IndexOfJob(jobs, id);
    if i.None? then (jobs, ClaimLostBeforeStart) else
    var (after, report) := RunRecord(jobs[i.value], cal, token, run);
    (jobs[i.value := after], report)
  }

  /** The table and the next token after the due jobs ran one after another. */
  function RunAll(jobs: seq<Job>, cal: Calendar, token: nat, ids: seq<string>, runs: Runs): (seq<Job>, nat, seq<Report>) {
    if ids == [] then (jobs, token, []) else
    var n := |ids| - 1;
    var (before, next, reports) := RunAll(jobs, cal, token, ids[..n], runs);
    var (after, report) := RunAt(before, cal, next, ids[n], runs(n));
    (after, if report.ClaimLostBeforeStart? then next else next + 1, reports + [report])
  }

  // ----- left alone among the courses ---------------------------------------------------------

  function Quiet(beats: seq<int>): (r: seq<Beat>)
    ensures |r| == |beats|
  {
    seq(|beats|, i requires 0 <= i < |beats| => Beat([], beats[i], false))
  }

  /** Nobody else touches the jobs file and nothing throws. */
  function Undisturbed(run: Run): Course {
    Course([], run.claimAt, Quiet(run.beats), run.rejects, run.success, [], run.markAt, false, false)
  }

  lemma WrittenOver(jobs: seq<Job>, i: nat, once: Job, twice: Job)
    requires i < |jobs|
    ensures jobs[i := once][i := twice] == jobs[i := twice]
    ensures jobs[i := jobs[i]] == jobs
  {
  }

  lemma {:induction false} QuietBeats(jobs: seq<Job>, cal: Calendar, id: string, owner: nat, beats: seq<int>, i: nat)
    requires IndexOfJob(jobs, id) == Some(i)
    ensures var (after, alive) := Beats(jobs[i], owner, beats);
            Watched(jobs, cal, id, owner, Quiet(beats)) == (jobs[i := after], alive)
    decreases |beats|
  {
    if beats == [] {
      assert jobs[i := jobs[i]] == jobs;
    } else {
      assert Quiet(beats)[0] == Beat([], beats[0], false) && Quiet(beats)[1..] == Quiet(beats[1..]);
      assert Meanwhile(jobs, cal, []) == jobs;
      if CanHeartbeat(jobs[i], owner, beats[0]) {
        var next := DoAt(jobs, id, cal, Heartbeat(owner), beats[0]);
        StillFound(jobs, next, id);
        QuietBeats(next, cal, id, owner, beats[1..], i);
        WrittenOver(jobs, i, next[i], Beats(next[i], owner, beats[1..]).0);
      } else {
        assert jobs[i := jobs[i]] == jobs;
      }
    }
  }

  lemma UndisturbedEnd(jobs: seq<Job>, cal: Calendar, id: string, owner: nat, run: Run, i: nat)
    requires IndexOfJob(jobs, id) == Some(i)
    ensures var (after, report) := Complete(jobs[i], cal, owner, run);
            Ended(jobs, cal, id, owner, Undisturbed(run)) == (jobs[i := after], report)
  {
    QuietBeats(jobs, cal, id, owner, run.beats, i);
    var beaten := jobs[i := Beats(jobs[i], owner, run.beats).0];
    StillFound(jobs, beaten, id);
    assert Meanwhile(beaten, cal, []) == beaten;
    WrittenOver(jobs, i, beaten[i], Complete(jobs[i], cal, owner, run).0);
    WrittenOver(beaten, i, beaten[i], beaten[i]);
  }

  lemma UndisturbedCourse(jobs: seq<Job>, cal: Calendar, token: nat, id: string, run: Run)
    ensures CourseOf(jobs, cal, token, id, Undisturbed(run)) == RunAt(jobs, cal, token, id, run)
  {
    assert Meanwhile(jobs, cal, []) == jobs;
    var i := IndexOfJob(jobs, id);
    if i.Some? {
      assert jobs[i.value := jobs[i.value]] == jobs;
      if Claimable(jobs[i.value], run.claimAt) {
        var claimed := DoAt(jobs, id, cal, MakeClaim(token), run.claimAt);
        StillFound(jobs, claimed, id);
        UndisturbedEnd(claimed, cal, id, token, run, i.value);
        WrittenOver(jobs, i.value, claimed[i.value], Complete(claimed[i.value], cal, token, run).0);
      }
    }
  }

  /** The table, the next token and the reports after the due jobs ran among others. */
  function CourseAll(jobs: seq<Job>, cal: Calendar, token: nat, ids: seq<string>, courses: Courses)
    : (seq<Job>, nat, seq<Report>)
  {
    if ids == [] then (jobs, token, []) else
    var n := |ids| - 1;
    var (before, next, reports) := CourseAll(jobs, cal, token, ids[..n], courses);
    var (after, report) := CourseOf(before, cal, next, ids[n], courses(n));
    (after, if report.ClaimLostBeforeStart? then next else next + 1, reports + [report])
  }

  function LeftAlone(runs: Runs): Courses {
    (n: nat) => Undisturbed(runs(n))
  }

  lemma {:induction false} LeftAloneAll(jobs: seq<Job>, cal: Calendar, token: nat, ids: seq<string>, runs: Runs)
    ensures CourseAll(jobs, cal, token, ids, LeftAlone(runs)) == RunAll(jobs, cal, token, ids, runs)
  {
    if ids == [] {
    } else {
      var n := |ids| - 1;
      LeftAloneAll(jobs, cal, token, ids[..n], runs);
      var (before, next, _) := RunAll(jobs, cal, token, ids[..n], runs);
      UndisturbedCourse(before, cal, next, ids[n], runs(n));
    }
  }

  lemma {:induction false} RunAllShape(jobs: seq<Job>, cal: Calendar, token: nat, ids: seq<string>, runs: Runs)
    ensures var after := RunAll(jobs, cal, token, ids, runs).0;
            |after| == |jobs| && forall k | 0 <= k < |jobs| :: after[k].id == jobs[k].id
    ensures |RunAll(jobs, cal, token, ids, runs).2| == |ids|
  {
    if ids == [] {
    } else {
      RunAllShape(jobs, cal, token, ids[..|ids| - 1], runs);
    }
  }

  /** A job that is not run keeps its record. */
  lemma {:induction false} OthersUntouched(jobs: seq<Job>, cal: Calendar, token: nat, ids: seq<string>, runs: Runs, k: nat)
    requires k < |jobs| && jobs[k].id !in ids
    ensures |RunAll(jobs, cal, token, ids, runs).0| == |jobs|
    ensures RunAll(jobs, cal, token, ids, runs).0[k] == jobs[k]
  {
    RunAllShape(jobs, cal, token, ids, runs);
    if ids == [] {
    } else {
      var n := |ids| - 1;
      assert ids[n] in ids;
      OthersUntouched(jobs, cal, token, ids[..n], runs, k);
    }
  }

  lemma FoundAt(jobs: seq<Job>, k: nat)
    requires DistinctIds(jobs) && k < |jobs|
    ensures IndexOfJob(jobs, jobs[k].id) == Some(k)
  {
  }

  /** A job that is run is run once, from the record it had. */
  lemma {:induction false} EachRunsOnce(jobs: seq<Job>, cal: Calendar, token: nat, ids: seq<string>, runs: Runs, k: nat, p: nat)
    returns (own: nat)
    requires DistinctIds(jobs) && NoDuplicates(ids) && k < |jobs| && p < |ids| && ids[p] == jobs[k].id
    ensures |RunAll(jobs, cal, token, ids, runs).0| == |jobs|
    ensures RunAll(jobs, cal, token, ids, runs).0[k] == RunRecord(jobs[k], cal, own, runs(p)).0
    decreases |ids|
  {
    var n := |ids| - 1;
    RunAllShape(jobs, cal, token, ids, runs);
    RunAllShape(jobs, cal, token, ids[..n], runs);
    var (before, next, _) := RunAll(jobs, cal, token, ids[..n], runs);
    if p == n {
      OthersUntouched(jobs, cal, token, ids[..n], runs, k);
      FoundAt(before, k);
      own := next;
    } else {
      own := EachRunsOnce(jobs, cal, token, ids[..n], runs, k, p);
      assert ids[n] != ids[p];
    }
  }

  // ----- the scheduler ------------------------------------------------------------------------

  function IdsOf(due: seq<DueJob>): (ids: seq<string>)
    ensures |ids| == |due| && forall i | 0 <= i < |due| :: ids[i] == due[i].job.id
  {
    seq(|due|, i requires 0 <= i < |due| => due[i].job.id)
  }

  function Elements(ids: seq<string>): set<string> {
    set id | id in ids
  }

  /** The table when the due jobs are about to run. */
  function AdvancedTable(jobs: seq<Job>, cal: Calendar, now: int): seq<Job> {
    AdvanceTable(DueTable(jobs, cal, now), Elements(IdsOf(DueList(jobs, cal, now))), cal, now)
  }

  /** The due list names exactly the due records. */
  lemma {:induction false} DueListNames(jobs: seq<Job>, cal: Calendar, now: int)
    requires DistinctIds(jobs)
    ensures NoDuplicates(IdsOf(DueList(jobs, cal, now)))
    ensures forall id | id in IdsOf(DueList(jobs, cal, now)) :: exists k | 0 <= k < |jobs| :: jobs[k].id == id
    ensures forall k | 0 <= k < |jobs| ::
              jobs[k].id in IdsOf(DueList(jobs, cal, now)) <==> Due(jobs[k], cal, now).1.Some?
  {
    if jobs == [] {
    } else {
      var n := |jobs| - 1;
      var init, due := jobs[..n], Due(jobs[n], cal, now).1;
      DueListNames(init, cal, now);
      var before, ids := IdsOf(DueList(init, cal, now)), IdsOf(DueList(jobs, cal, now));
      DueKeepsId(jobs[n], cal, now);
      assert ids == if due.Some? then before + [jobs[n].id] else before;
      forall k | 0 <= k < n ensures init[k] == jobs[k] && init[k].id != jobs[n].id {
        assert jobs[k].id != jobs[n].id;
      }
      forall q | 0 <= q < |before| ensures before[q] != jobs[n].id {
        assert before[q] in before;
        var k :| 0 <= k < n && init[k].id == before[q];
      }
    }
  }

  lemma DueKeepsId(job: Job, cal: Calendar, now: int)
    ensures Due(job, cal, now).0.id == job.id
    ensures Due(job, cal, now).1.Some? ==> Due(job, cal, now).1.value.job.id == job.id
  {
  }

  /**
   One tick left alone, over a table without repeated ids: a record that is not due only goes through the
   due computation; a due one runs once, as the tick machine would take it.
  */
  lemma TickTreatsEachJob(jobs: seq<Job>, cal: Calendar, now: int, token: nat, runs: Runs, k: nat)
    returns (own: nat, p: nat)
    requires DistinctIds(jobs) && k < |jobs|
    ensures var ids := IdsOf(DueList(jobs, cal, now));
            var after := CourseAll(AdvancedTable(jobs, cal, now), cal, token, ids, LeftAlone(runs)).0;
            && |after| == |jobs|
            && (Due(jobs[k], cal, now).1.None? ==> after[k] == Due(jobs[k], cal, now).0)
            && (Due(jobs[k], cal, now).1.Some? ==>
                  p < |ids| && ids[p] == jobs[k].id && after[k] == TickRecord(jobs[k], cal, now, own, runs(p)))
  {
    own, p := 0, 0;
    var ids, table := IdsOf(DueList(jobs, cal, now)), AdvancedTable(jobs, cal, now);
    DueListNames(jobs, cal, now);
    LeftAloneAll(table, cal, token, ids, runs);
    forall i | 0 <= i < |jobs| ensures table[i].id == jobs[i].id { DueKeepsId(jobs[i], cal, now); }
    if Due(jobs[k], cal, now).1.Some? {
      assert table[k] == AdvanceJob(Due(jobs[k], cal, now).0, cal, now);
      p :| 0 <= p < |ids| && ids[p] == jobs[k].id;
      own := EachRunsOnce(table, cal, token, ids, runs, k, p);
    } else {
      OthersUntouched(table, cal, token, ids, runs, k);
    }
  }

  class CronScheduler {
    const store: CronJobStore
    var inflightJobIds: set<string>

    constructor (store: CronJobStore)
      ensures this.store == store && inflightJobIds == {}
    {
      this.store := store;
      inflightJobIds := {};
    }

    /** Claim, run under heartbeats, mark; the job is in flight for exactly that long. */
    method RunDueJob(id: string, c: Course) returns (report: Report)
      requires id !in inflightJobIds
      modifies this, store
      ensures inflightJobIds == old(inflightJobIds)
      ensures (store.jobs, report) == CourseOf(old(store.jobs), store.cal, old(store.nextToken), id, c)
      ensures store.nextToken == old(store.nextToken) + if report.ClaimLostBeforeStart? then 0 else 1
    {
      inflightJobIds := inflightJobIds + {id};
      report := RunDueJobRegistered(id, c);
      inflightJobIds := inflightJobIds - {id};
    }

    /** The run itself, entered only while the job is listed as in flight. */
    method RunDueJobRegistered(id: string, c: Course) returns (report: Report)
      requires id in inflightJobIds
      modifies store
      ensures (store.jobs, report) == CourseOf(old(store.jobs), store.cal, old(store.nextToken), id, c)
      ensures store.nextToken == old(store.nextToken) + if report.ClaimLostBeforeStart? then 0 else 1
    {
      OthersAct(c.before);
      ghost var seen := store.jobs;
      var claimed := store.ClaimJobForFire(id, c.claimAt);
      if claimed.None? || claimed.value.claim.None? {
        assert store.jobs == seen;
        return ClaimLostBeforeStart;
      }
      report := FinishClaimed(id, claimed.value.claim.value.owner, c);
    }

    method FinishClaimed(id: string, owner: nat, c: Course) returns (report: Report)
      modifies store`jobs
      ensures (store.jobs, report) == Ended(old(store.jobs), store.cal, id, owner, c)
    {
      var alive := Monitor(id, owner, c.beats);
      OthersAct(c.after);
      if c.rejects {
        report := PersistError(id, owner, c);
        return;
      }
      if !alive {
        return ClaimLost;
      }
      if c.markThrows {
        report := PersistError(id, owner, c);
        return;
      }
      MarkedMeans(store.jobs, store.cal, id, owner, c.success, c.markAt);
      var marked := store.MarkJobRun(id, c.success, None, Some(owner), c.markAt);
      report := if marked then Finished(c.success) else StaleMarkDiscarded;
    }

    /** The error path: a failed run is marked if that is possible, and reported either way. */
    method PersistError(id: string, owner: nat, c: Course) returns (report: Report)
      modifies store`jobs
      ensures store.jobs
           == if c.errorMarkThrows then old(store.jobs) else Marked(old(store.jobs), store.cal, id, owner, false, c.markAt)
      ensures report == Failed
    {
      if !c.errorMarkThrows {
        var _ := store.MarkJobRun(id, false, None, Some(owner), c.markAt);
      }
      report := Failed;
    }

    /** Heartbeat the claim while the runner works; false as soon as it is lost. */
    method Monitor(id: string, owner: nat, beats: seq<Beat>) returns (alive: bool)
      modifies store`jobs
      ensures (store.jobs, alive) == Watched(old(store.jobs), store.cal, id, owner, beats)
    {
      for n := 0 to |beats|
        invariant Watched(old(store.jobs), store.cal, id, owner, beats)
               == Watched(store.jobs, store.cal, id, owner, beats[n..])
      {
        assert beats[n..][0] == beats[n] && beats[n..][1..] == beats[n + 1..];
        OthersAct(beats[n].others);
        if !beats[n].throws {
          ghost var seen := store.jobs;
          alive := store.HeartbeatRunClaim(id, owner, beats[n].at);
          if !alive {
            assert store.jobs == seen;
            return;
          }
        }
      }
      alive := true;
    }

    /** What others did to the jobs file in the meantime. */
    method OthersAct(acts: seq<Act>)
      modifies store`jobs
      ensures store.jobs == Meanwhile(old(store.jobs), store.cal, acts)
    {
      for n := 0 to |acts|
        invariant store.jobs == Meanwhile(old(store.jobs), store.cal, acts[..n])
      {
        assert acts[..n + 1][..n] == acts[..n];
        store.jobs := Changed(store.jobs, store.cal, acts[n]);
      }
      assert acts[..|acts|] == acts;
    }

    /**
     One tick. Without the tick lock, or with the emergency stop set, nothing is touched;
     otherwise due jobs are advanced all together before the first of them runs.
    */
    method TickOnce(lockAcquired: bool, stopped: bool, now: int, courses: Courses) returns (results: seq<Report>)
      requires inflightJobIds == {}
      modifies this, store
      ensures inflightJobIds == {}
      ensures !lockAcquired || stopped ==> store.jobs == old(store.jobs) && results == []
      ensures lockAcquired && !stopped ==>
                var ids := IdsOf(DueList(old(store.jobs), store.cal, now));
                var r := CourseAll(AdvancedTable(old(store.jobs), store.cal, now), store.cal, old(store.nextToken), ids, courses);
                store.jobs == r.0 && results == r.2
    {
      if !lockAcquired || stopped { return []; }
      var due := store.GetDueJobs(now);
      if due == [] {
        assert AdvanceTable(store.jobs, {}, store.cal, now) == store.jobs;
        return [];
      }
      var _ := store.AdvanceNextRuns(Elements(IdsOf(due)), now);
      results := RunDueJobs(IdsOf(due), courses);
    }

    /** The due jobs, one after another. */
    method RunDueJobs(ids: seq<string>, courses: Courses) returns (results: seq<Report>)
      requires inflightJobIds == {}
      modifies this, store
      ensures inflightJobIds == {}
      ensures (store.jobs, store.nextToken, results)
           == CourseAll(old(store.jobs), store.cal, old(store.nextToken), ids, courses)
    {
      results := [];
      for i := 0 to |ids|
        invariant inflightJobIds == {}
        invariant (store.jobs, store.nextToken, results)
               == CourseAll(old(store.jobs), store.cal, old(store.nextToken), ids[..i], courses)
      {
        assert ids[..i + 1][..i] == ids[..i];
        var report := RunDueJob(ids[i], courses(i));
        results := results + [report];
      }
      assert ids[..|ids|] == ids;
    }
  }

  lemma StillFound(before: seq<Job>, after: seq<Job>, id: string)
    requires IndexOfJob(before, id).Some?
    requires |after| == |before| && forall k | 0 <= k < |before| :: after[k].id == before[k].id
    ensures IndexOfJob(after, id) == IndexOfJob(before, id)
  {
  }
}
