/**
 Whole runs of one cron job: who may mark it, and which slots are claimed for it
 (src/pi_embedded/cron/scheduler.ts drives the store operations in this order).
*/
module CronRuns {
  import opened Text
  import opened CronSchedules
  import opened CronStore

  // ----- fire ownership, with no assumption on ticks or clocks -------------------------

  /** The record, the tokens of its successful claims and the tokens of its successful marks. */
  datatype Ledger = Ledger(job: Job, issued: seq<nat>, marks: seq<nat>)
  datatype Timed = Timed(op: Op, now: int)

  predicate Minted(l: Ledger, e: Timed) {
    e.op.MakeClaim? ==> forall t <- l.issued :: t < e.op.token
  }

  function Record(l: Ledger, cal: Calendar, e: Timed): Ledger {
    Ledger(
      Do(l.job, cal, e.op, e.now),
      if e.op.MakeClaim? && Claimable(l.job, e.now) then l.issued + [e.op.token] else l.issued,
      if e.op.Mark? && e.op.expected.Some? && CanMark(l.job, e.op.expected)
      then l.marks + [e.op.expected.value] else l.marks)
  }

  function Play(l: Ledger, cal: Calendar, run: seq<Timed>): Option<Ledger> {
    if run == [] then Some(l) else
    var before := Play(l, cal, run[..|run| - 1]);
    var e := run[|run| - 1];
    if before.Some? && Minted(before.value, e) then Some(Record(before.value, cal, e)) else None
  }

  /** The ledger notes the token of every claim that is taken and of every mark that is accepted. */
  lemma LedgerNotes(l: Ledger, cal: Calendar, e: Timed, t: nat)
    ensures t in Record(l, cal, e).issued <==> t in l.issued || (e.op == MakeClaim(t) && Claimable(l.job, e.now))
    ensures t in Record(l, cal, e).marks
       <==> t in l.marks || (e.op.Mark? && e.op.expected == Some(t) && Holds(l.job, t))
  {
  }

  /** The standing claim is the latest one, and it has not been marked. */
  predicate Owned(l: Ledger) {
    && (forall i, j | 0 <= i < j < |l.issued| :: l.issued[i] < l.issued[j])
    && (forall i, j | 0 <= i < j < |l.marks| :: l.marks[i] < l.marks[j])
    && (forall m <- l.marks :: m in l.issued)
    && (l.job.claim.Some? ==>
          && l.issued != [] && l.job.claim.value.owner == l.issued[|l.issued| - 1]
          && l.job.claim.value.owner !in l.marks)
  }

  lemma ClaimAfter(job: Job, cal: Calendar, op: Op, now: int)
    ensures var after := Do(job, cal, op, now).claim;
            after.Some? ==>
              if op.MakeClaim? && Claimable(job, now) then after.value.owner == op.token
              else job.claim.Some? && after.value.owner == job.claim.value.owner
    ensures op.Mark? && op.expected.Some? && CanMark(job, op.expected) ==> Do(job, cal, op, now).claim.None?
  {
  }

  lemma RecordOwned(l: Ledger, cal: Calendar, e: Timed)
    requires Owned(l) && Minted(l, e)
    ensures Owned(Record(l, cal, e))
  {
    ClaimAfter(l.job, cal, e.op, e.now);
    forall i | 0 <= i < |l.issued| ensures e.op.MakeClaim? ==> l.issued[i] < e.op.token {
      assert l.issued[i] in l.issued;
    }
    if e.op.Mark? && e.op.expected.Some? && CanMark(l.job, e.op.expected) {
      forall i | 0 <= i < |l.marks| ensures l.marks[i] < e.op.expected.value {
        assert l.marks[i] in l.issued;
        var k :| 0 <= k < |l.issued| && l.issued[k] == l.marks[i];
      }
    }
  }

  lemma {:induction false} PlayOwned(l: Ledger, cal: Calendar, run: seq<Timed>)
    requires Owned(l) && Play(l, cal, run).Some?
    ensures Owned(Play(l, cal, run).value)
  {
    if run == [] {
    } else {
      PlayOwned(l, cal, run[..|run| - 1]);
      RecordOwned(Play(l, cal, run[..|run| - 1]).value, cal, run[|run| - 1]);
    }
  }

  /** In any run, a mark that succeeds carries the token of the latest claim, never used before. */
  lemma MarksCarryLatestClaim(job: Job, cal: Calendar, run: seq<Timed>, owner: nat)
    requires job.claim.None? && Play(Ledger(job, [], []), cal, run).Some?
    ensures var l := Play(Ledger(job, [], []), cal, run).value;
            CanMark(l.job, Some(owner)) ==>
              l.issued != [] && owner == l.issued[|l.issued| - 1] && owner !in l.marks
  {
    PlayOwned(Ledger(job, [], []), cal, run);
  }

  /** A token that was issued and does not hold the record. */
  predicate Lost(l: Ledger, owner: nat) {
    owner in l.issued && !Holds(l.job, owner)
  }

  lemma {:induction false} LostStaysLost(l: Ledger, cal: Calendar, run: seq<Timed>, owner: nat)
    requires Lost(l, owner) && Play(l, cal, run).Some?
    ensures Lost(Play(l, cal, run).value, owner)
  {
    if run == [] {
    } else {
      var before, e := run[..|run| - 1], run[|run| - 1];
      LostStaysLost(l, cal, before, owner);
      ClaimAfter(Play(l, cal, before).value.job, cal, e.op, e.now);
    }
  }

  /** A lost token can never heartbeat, clear or mark again, whatever happens in between. */
  lemma LostTokenIsPowerless(l: Ledger, cal: Calendar, run: seq<Timed>, owner: nat, now: int, success: bool, status: Option<Status>)
    requires Lost(l, owner) && Play(l, cal, run).Some?
    ensures var job := Play(l, cal, run).value.job;
            && HeartbeatJob(job, owner, now) == job
            && ClearJob(job, owner) == job
            && MarkJob(job, cal, Some(owner), now, success, status) == job
  {
    LostStaysLost(l, cal, run, owner);
  }

  /** From its creation on, through any operations at any instants, what is parked for a cron job matches it. */
  lemma {:induction false} StaysLegal(id: string, cal: Calendar, sch: Schedule, now: int, run: seq<Timed>, l: Ledger)
    requires NewJob(id, cal, sch, now).Some?
    requires Play(Ledger(NewJob(id, cal, sch, now).value, [], []), cal, run) == Some(l)
    ensures LegalNext(l.job, cal)
  {
    if run == [] {
      NewJobsAreLegal(id, cal, sch, now);
    } else {
      var before, e := run[..|run| - 1], run[|run| - 1];
      var l0 := Play(Ledger(NewJob(id, cal, sch, now).value, [], []), cal, before).value;
      StaysLegal(id, cal, sch, now, before, l0);
      WritersAreLegal(l0.job, cal, e.op, e.now, l.job);
    }
  }

  // ----- ticks serialized by the tick lock ----------------------------------------------

  /** Where the current tick stands with this job; `at` is the instant the due list was computed. */
  datatype Tick = NoTick | Listed(at: int, slot: int) | Advanced(at: int, slot: int) | Running(token: nat)

  datatype World = World(
    job: Job, clock: int, tick: Tick,
    slots: seq<int>,     // slots claimed so far
    lastClaim: int,      // instant of the latest successful claim
    marks: nat,          // successful marks
    nextToken: nat)

  datatype Label =
    | TickList
    | TickAdvance
    | TickClaim
    | TickHeartbeat(rejects: bool)   // an interrupted run that rejects still goes down the error path
    | TickMark(success: bool, status: Option<Status>, again: bool)   // `again`: the error path may mark once more
    | Crash
    | Operator(op: Op)
    | Wait(ms: nat)

  predicate Enabled(w: World, l: Label) {
    match l
    case TickList => w.tick.NoTick?
    case TickAdvance => w.tick.Listed?
    case TickClaim => w.tick.Advanced?
    case TickHeartbeat(_) => w.tick.Running?
    case TickMark(_, _, _) => w.tick.Running?
    case Crash => true
    case Operator(op) => op.Pause? || op.Resume? || op.Update?
    case Wait(_) => true
  }

  function Step(w: World, cal: Calendar, l: Label): World
    requires Enabled(w, l)
  {
    match l
    case TickList =>
      var (job, due) := Due(w.job, cal, w.clock);
      w.(job := job, tick := if due.Some? then Listed(w.clock, SlotOf(w.job, cal, w.clock)) else NoTick)
    case TickAdvance =>
      w.(job := AdvanceJob(w.job, cal, w.tick.at), tick := Advanced(w.tick.at, w.tick.slot))
    case TickClaim =>
      if Claimable(w.job, w.clock) then
        w.(job := ClaimJob(w.job, cal, w.clock, w.nextToken), tick := Running(w.nextToken),
           slots := w.slots + [w.tick.slot], lastClaim := w.clock, nextToken := w.nextToken + 1)
      else w.(tick := NoTick)
    case TickHeartbeat(rejects) =>
      if CanHeartbeat(w.job, w.tick.token, w.clock) then w.(job := HeartbeatJob(w.job, w.tick.token, w.clock))
      else w.(tick := if rejects then w.tick else NoTick)
    case TickMark(success, status, again) =>
      w.(job := MarkJob(w.job, cal, Some(w.tick.token), w.clock, success, status),
         marks := if CanMark(w.job, Some(w.tick.token)) then w.marks + 1 else w.marks,
         tick := if again then w.tick else NoTick)
    case Crash => w.(tick := NoTick)
    case Operator(op) => w.(job := Do(w.job, cal, op, w.clock))
    case Wait(ms) => w.(clock := w.clock + ms)
  }

  function Start(job: Job, clock: int): World {
    World(job, clock, NoTick, [], clock, 0, 0)
  }

  function After(w: World, cal: Calendar, run: seq<Label>): Option<World> {
    if run == [] then Some(w) else
    var before := After(w, cal, run[..|run| - 1]);
    if before.Some? && Enabled(before.value, run[|run| - 1])
    then Some(Step(before.value, cal, run[|run| - 1])) else None
  }

  /** A claim that stands while a tick runs the job is the tick's own; no later tick gets its token again. */
  lemma {:induction false} RunningOwnsClaim(job: Job, clock: int, cal: Calendar, run: seq<Label>, w: World)
    requires After(Start(job, clock), cal, run) == Some(w)
    ensures w.tick.Running? && w.job.claim.Some? ==> Holds(w.job, w.tick.token)
    ensures w.tick.Running? ==> w.tick.token < w.nextToken
    ensures job.claim.None? && w.job.claim.Some? ==> w.job.claim.value.owner < w.nextToken
  {
    if run == [] {
    } else {
      RunningOwnsClaim(job, clock, cal, run[..|run| - 1], After(Start(job, clock), cal, run[..|run| - 1]).value);
    }
  }

  predicate Recurs(sch: Schedule) {
    !sch.Once? && (sch.Interval? ==> sch.minutes >= 1)
  }

  predicate KeepsRecurring(l: Label) {
    l.Operator? && l.op.Update? ==> Recurs(l.op.sch)
  }

  /** The advance finds a next run, or the listed slot is no longer what is parked. */
  predicate Separates(w: World, cal: Calendar, l: Label) {
    l.TickAdvance? && w.tick.Listed? ==>
      || ComputeNextRun(w.job.schedule, cal, w.tick.at, None).Some?
      || (w.job.nextRunAt.Some? ==> w.job.nextRunAt.value > w.tick.slot)
  }

  predicate Later(n: Option<int>, w: World) {
    n.Some? && w.slots != [] ==> n.value > w.slots[|w.slots| - 1]
  }

  /** The claimed slots increase, and whatever is parked or listed lies beyond them. */
  predicate SlotsAhead(w: World) {
    && Recurs(w.job.schedule)
    && (forall i, j | 0 <= i < j < |w.slots| :: w.slots[i] < w.slots[j])
    && (w.slots != [] ==>
          && w.slots[|w.slots| - 1] <= w.lastClaim <= w.clock
          && (|| (w.job.claim.Some? && w.lastClaim <= w.job.claim.value.at <= w.clock)
              || (w.job.lastRunAt.Some? && w.job.lastRunAt.value >= w.lastClaim)))
    && Later(w.job.nextRunAt, w)
    && (w.tick.Listed? || w.tick.Advanced? ==> w.tick.slot <= w.tick.at <= w.clock && Later(Some(w.tick.slot), w))
    && (w.tick.Advanced? && w.job.nextRunAt.Some? ==> w.job.nextRunAt.value > w.tick.slot)
  }

  /** A re-arm to the present instant lands beyond the latest claimed slot: no live claim, no recent run. */
  lemma RearmIsLater(w: World, cal: Calendar)
    requires SlotsAhead(w) && w.slots != [] && w.job.nextRunAt.Some? && StaleError(w.job, cal, w.clock)
    ensures w.clock > w.slots[|w.slots| - 1]
  {
  }

  lemma RearmedLater(w: World, cal: Calendar)
    requires SlotsAhead(w) && w.job.nextRunAt.Some?
    ensures Later(Rearmed(w.job, cal, w.clock).nextRunAt, w)
  {
    NextRunIsLater(w.job.schedule, cal, w.clock);
    if w.slots != [] && StaleError(w.job, cal, w.clock) {
      RearmIsLater(w, cal);
    }
  }

  lemma ListKeepsAhead(w: World, cal: Calendar)
    requires SlotsAhead(w) && w.tick.NoTick?
    ensures SlotsAhead(Step(w, cal, TickList))
  {
    if Runnable(w.job) && w.job.nextRunAt.Some? {
      NextRunIsLater(w.job.schedule, cal, w.clock);
      RearmedLater(w, cal);
      var armed := Rearmed(w.job, cal, w.clock);
      assert armed == w.job.(nextRunAt := armed.nextRunAt);
      var (job, due) := Due(w.job, cal, w.clock);
      assert job == w.job.(nextRunAt := job.nextRunAt);
      assert Later(job.nextRunAt, w);
    }
  }

  lemma ClaimKeepsAhead(w: World, cal: Calendar)
    requires SlotsAhead(w) && w.tick.Advanced?
    ensures SlotsAhead(Step(w, cal, TickClaim))
  {
    if Claimable(w.job, w.clock) {
      NextRunIsLater(w.job.schedule, cal, w.clock);
      var v := Step(w, cal, TickClaim);
      assert v.slots == w.slots + [w.tick.slot] && v.tick.Running?;
      assert v.job.claim == Some(Claim(w.clock, w.nextToken)) && v.job.schedule == w.job.schedule;
      assert v.job.nextRunAt.Some? ==> v.job.nextRunAt.value > w.tick.slot;
    }
  }

  lemma MarkKeepsAhead(w: World, cal: Calendar, l: Label)
    requires SlotsAhead(w) && l.TickMark? && Enabled(w, l)
    ensures SlotsAhead(Step(w, cal, l))
  {
    NextRunIsLater(w.job.schedule, cal, w.clock);
    MarkShape(w.job, cal, Some(w.tick.token), w.clock, l.success, l.status);
    var v := Step(w, cal, l);
    assert v.slots == w.slots && v.lastClaim == w.lastClaim && v.clock == w.clock;
    assert !v.tick.Listed? && !v.tick.Advanced?;
  }

  /** What a mark writes of the fields that decide which slot comes next. */
  lemma MarkShape(job: Job, cal: Calendar, owner: Option<nat>, now: int, success: bool, status: Option<Status>)
    ensures var marked := MarkJob(job, cal, owner, now, success, status);
            && marked.schedule == job.schedule
            && (if CanMark(job, owner)
                then marked.lastRunAt == Some(now) && marked.nextRunAt == ComputeNextRun(job.schedule, cal, now, Some(now))
                else marked == job)
  {
  }

  lemma OperatorKeepsAhead(w: World, cal: Calendar, l: Label)
    requires SlotsAhead(w) && l.Operator? && Enabled(w, l) && KeepsRecurring(l)
    ensures SlotsAhead(Step(w, cal, l))
  {
    NextRunIsLater(w.job.schedule, cal, w.clock);
    if l.op.Update? {
      NextRunIsLater(l.op.sch, cal, w.clock);
    }
  }

  lemma StepKeepsAhead(w: World, cal: Calendar, l: Label)
    requires SlotsAhead(w) && Enabled(w, l) && KeepsRecurring(l) && Separates(w, cal, l)
    ensures SlotsAhead(Step(w, cal, l))
  {
    match l
    case TickList => ListKeepsAhead(w, cal);
    case TickAdvance => NextRunIsLater(w.job.schedule, cal, w.tick.at);
    case TickClaim => ClaimKeepsAhead(w, cal);
    case TickHeartbeat(_) =>
    case TickMark(_, _, _) => MarkKeepsAhead(w, cal, l);
    case Crash =>
    case Operator(op) => OperatorKeepsAhead(w, cal, l);
    case Wait(_) =>
  }

  // ----- schedules that keep finding a next run ---------------------------------------------

  /** At `c` the schedule finds a run that is reached by `t`, and at `t` it finds none. */
  predicate Lapses(sch: Schedule, cal: Calendar, c: int, t: int) {
    var found := ComputeNextRun(sch, cal, c, None);
    found.Some? && found.value <= t && ComputeNextRun(sch, cal, t, None).None?
  }

  ghost predicate NeverLapses(sch: Schedule, cal: Calendar) {
    forall c, t :: !Lapses(sch, cal, c, t)
  }

  /** The instant is one the schedule computes; an interval job can also be pulled back to the present. */
  ghost predicate Arises(sch: Schedule, cal: Calendar, v: int) {
    sch.Interval? || exists c :: ComputeNextRun(sch, cal, c, None) == Some(v)
  }

  ghost predicate Stored(job: Job, cal: Calendar) {
    job.nextRunAt.Some? ==> Arises(job.schedule, cal, job.nextRunAt.value)
  }

  /** What is parked was computed by the present schedule, and so was what is listed, unless that is past. */
  ghost predicate Grounded(w: World, cal: Calendar) {
    && Stored(w.job, cal)
    && (w.tick.Listed? ==>
          || Arises(w.job.schedule, cal, w.tick.slot)
          || (w.job.nextRunAt.Some? ==> w.job.nextRunAt.value > w.tick.slot))
  }

  lemma ComputedArises(sch: Schedule, cal: Calendar, c: int, last: Option<int>)
    requires !sch.Once? && (last.None? || last == Some(c))
    ensures var next := ComputeNextRun(sch, cal, c, last); next.Some? ==> Arises(sch, cal, next.value)
  {
    assert sch.Cron? ==> ComputeNextRun(sch, cal, c, None) == ComputeNextRun(sch, cal, c, last);
  }

  lemma NewJobIsStored(id: string, cal: Calendar, sch: Schedule, now: int)
    requires !sch.Once?
    ensures NewJob(id, cal, sch, now).Some? && Stored(NewJob(id, cal, sch, now).value, cal)
  {
    ComputedArises(sch, cal, now, None);
  }

  lemma ListGrounded(w: World, cal: Calendar)
    requires Recurs(w.job.schedule) && Grounded(w, cal) && w.tick.NoTick?
    ensures Grounded(Step(w, cal, TickList), cal)
  {
    ComputedArises(w.job.schedule, cal, w.clock, None);
    if Runnable(w.job) && w.job.nextRunAt.Some? {
      var armed := Rearmed(w.job, cal, w.clock);
      assert armed.schedule == w.job.schedule && Stored(armed, cal);
    }
  }

  lemma StepGrounded(w: World, cal: Calendar, l: Label)
    requires SlotsAhead(w) && Grounded(w, cal) && Enabled(w, l) && KeepsRecurring(l)
    ensures Grounded(Step(w, cal, l), cal)
  {
    ComputedArises(w.job.schedule, cal, w.clock, None);
    ComputedArises(w.job.schedule, cal, w.clock, Some(w.clock));
    match l
    case TickList => ListGrounded(w, cal);
    case TickAdvance => ComputedArises(w.job.schedule, cal, w.tick.at, None);
    case TickMark(success, status, _) =>
      MarkShape(w.job, cal, Some(w.tick.token), w.clock, success, status);
    case Operator(op) =>
      NextRunIsLater(w.job.schedule, cal, w.clock);
      if op.Update? {
        ComputedArises(op.sch, cal, w.clock, None);
        NextRunIsLater(op.sch, cal, w.clock);
      }
    case _ =>
  }

  lemma GroundedSeparates(w: World, cal: Calendar, l: Label)
    requires SlotsAhead(w) && Grounded(w, cal) && NeverLapses(w.job.schedule, cal)
    ensures Separates(w, cal, l)
  {
    if l.TickAdvance? && w.tick.Listed? && Arises(w.job.schedule, cal, w.tick.slot) && w.job.schedule.Cron? {
      var c :| ComputeNextRun(w.job.schedule, cal, c, None) == Some(w.tick.slot);
      assert !Lapses(w.job.schedule, cal, c, w.tick.at);
    }
  }

  /** Every schedule a run gives the job recurs and never lapses. */
  ghost predicate UpdatesNeverLapse(run: seq<Label>, cal: Calendar) {
    forall l | l in run && l.Operator? && l.op.Update? :: Recurs(l.op.sch) && NeverLapses(l.op.sch, cal)
  }

  lemma ScheduleChanges(w: World, cal: Calendar, l: Label)
    requires Enabled(w, l)
    ensures Step(w, cal, l).job.schedule == w.job.schedule
         || (l.Operator? && l.op.Update? && Step(w, cal, l).job.schedule == l.op.sch)
  {
  }

  /**
   No slot of a recurring job is claimed twice while its schedules never lapse: the claimed
   slots increase strictly, through crashes between any two store operations, fast-forward,
   re-arm, pause, resume and update.
  */
  lemma {:induction false} SlotsIncrease(job: Job, clock: int, cal: Calendar, run: seq<Label>, w: World)
    requires Recurs(job.schedule) && Stored(job, cal) && NeverLapses(job.schedule, cal)
    requires After(Start(job, clock), cal, run) == Some(w) && UpdatesNeverLapse(run, cal)
    ensures forall i, j | 0 <= i < j < |w.slots| :: w.slots[i] < w.slots[j]
    ensures SlotsAhead(w) && Grounded(w, cal) && NeverLapses(w.job.schedule, cal)
  {
    if run == [] {
    } else {
      var before, l := run[..|run| - 1], run[|run| - 1];
      var v := After(Start(job, clock), cal, before).value;
      assert l in run && forall k | k in before :: k in run;
      SlotsIncrease(job, clock, cal, before, v);
      GroundedSeparates(v, cal, l);
      StepKeepsAhead(v, cal, l);
      StepGrounded(v, cal, l);
      ScheduleChanges(v, cal, l);
    }
  }

  predicate StaysInterval(run: seq<Label>) {
    forall l | l in run && l.Operator? && l.op.Update? :: l.op.sch.Interval? && l.op.sch.minutes >= 1
  }

  lemma IntervalNeverLapses(sch: Schedule, cal: Calendar)
    requires sch.Interval?
    ensures NeverLapses(sch, cal)
  {
  }

  /** Interval jobs of at least a minute need no condition. */
  lemma IntervalSlotsIncrease(job: Job, clock: int, cal: Calendar, run: seq<Label>, w: World)
    requires job.schedule.Interval? && job.schedule.minutes >= 1 && StaysInterval(run)
    requires After(Start(job, clock), cal, run) == Some(w)
    ensures forall i, j | 0 <= i < j < |w.slots| :: w.slots[i] < w.slots[j]
  {
    IntervalNeverLapses(job.schedule, cal);
    forall l | l in run && l.Operator? && l.op.Update? ensures Recurs(l.op.sch) && NeverLapses(l.op.sch, cal) {
      IntervalNeverLapses(l.op.sch, cal);
    }
    SlotsIncrease(job, clock, cal, run, w);
  }

  // ----- and those that do not ------------------------------------------------------------------

  lemma AfterAppend(w: World, cal: Calendar, run: seq<Label>, l: Label)
    requires After(w, cal, run).Some? && Enabled(After(w, cal, run).value, l)
    ensures After(w, cal, run + [l]) == Some(Step(After(w, cal, run).value, cal, l))
  {
    assert (run + [l])[..|run|] == run;
  }

  /** No label of a run changes the job's schedule, nor anything else an operator may. */
  predicate NoOperators(run: seq<Label>) {
    forall l | l in run :: !l.Operator?
  }

  /** A record parked on a slot that is due, with nobody holding it. */
  predicate Parked(v: World, slot: int) {
    && v.tick.NoTick? && Recurs(v.job.schedule) && Runnable(v.job) && v.job.nextRunAt == Some(slot)
    && slot <= v.clock && !Fresh(v.job.claim, v.clock)
  }

  lemma ParkedIsListed(v: World, cal: Calendar, slot: int)
    requires Parked(v, slot)
    ensures var u := Step(v, cal, TickList);
            && u == v.(job := u.job, tick := Listed(v.clock, slot))
            && u.job == v.job.(nextRunAt := u.job.nextRunAt)
            && (ComputeNextRun(v.job.schedule, cal, v.clock, None).None? ==> u.job == v.job)
  {
    assert Rearmed(v.job, cal, v.clock) == v.job;
  }

  lemma ListedIsClaimed(v: World, cal: Calendar)
    requires v.tick.Listed? && v.tick.at == v.clock && Claimable(v.job, v.clock) && Recurs(v.job.schedule)
    ensures Enabled(Step(v, cal, TickAdvance), TickClaim)
    ensures var u := Step(Step(v, cal, TickAdvance), cal, TickClaim);
            && u.slots == v.slots + [v.tick.slot] && u.clock == v.clock
            && (ComputeNextRun(v.job.schedule, cal, v.clock, None).None? ==>
                  u.job == v.job.(claim := Some(Claim(v.clock, v.nextToken))))
  {
  }

  /** A parked slot is listed, advanced and claimed in one tick. */
  lemma SlotClaimed(w: World, cal: Calendar, run: seq<Label>, v: World, slot: int) returns (longer: seq<Label>, u: World)
    requires After(w, cal, run) == Some(v) && NoOperators(run) && Parked(v, slot)
    ensures After(w, cal, longer) == Some(u) && NoOperators(longer)
    ensures u.slots == v.slots + [slot] && u.clock == v.clock
    ensures ComputeNextRun(v.job.schedule, cal, v.clock, None).None? ==>
              u.job == v.job.(claim := Some(Claim(v.clock, v.nextToken)))
  {
    var listed := Step(v, cal, TickList);
    ParkedIsListed(v, cal, slot);
    ListedIsClaimed(listed, cal);
    AfterAppend(w, cal, run, TickList);
    var advanced := Step(listed, cal, TickAdvance);
    AfterAppend(w, cal, run + [TickList], TickAdvance);
    u := Step(advanced, cal, TickClaim);
    AfterAppend(w, cal, run + [TickList] + [TickAdvance], TickClaim);
    longer := run + [TickList] + [TickAdvance] + [TickClaim];
  }

  /** From creation on, some run without operators claims one slot of the job twice. */
  ghost predicate ClaimsTwice(id: string, sch: Schedule, cal: Calendar, now: int, run: seq<Label>) {
    && NewJob(id, cal, sch, now).Some? && NoOperators(run)
    && var w := After(Start(NewJob(id, cal, sch, now).value, now), cal, run);
       w.Some? && exists i, j | 0 <= i < j < |w.value.slots| :: w.value.slots[i] == w.value.slots[j]
  }

  /**
   A job created while its schedule finds a run, ticked when it finds none, and crashed between
   claim and mark: once the claim has expired the next tick claims the same slot again.
  */
  lemma SameSlotTwice(id: string, sch: Schedule, cal: Calendar, c: int, t: int) returns (run: seq<Label>)
    requires Recurs(sch) && Lapses(sch, cal, c, t)
    ensures ClaimsTwice(id, sch, cal, c, run)
  {
    var slot := ComputeNextRun(sch, cal, c, None).value;
    NextRunIsLater(sch, cal, c);
    var w := Start(NewJob(id, cal, sch, c).value, c);
    AfterAppend(w, cal, [], Wait(t - c));
    var claimed: World;
    run, claimed := SlotClaimed(w, cal, [] + [Wait(t - c)], w.(clock := t), slot);
    var crashed: World;
    run, crashed := Crashes(w, cal, run, claimed);
    run, claimed := SlotClaimed(w, cal, run, crashed, slot);
    assert claimed.slots[0] == claimed.slots[1];
  }

  /** The tick's process dies and the claim it left runs out. */
  lemma Crashes(w: World, cal: Calendar, run: seq<Label>, v: World) returns (longer: seq<Label>, u: World)
    requires After(w, cal, run) == Some(v) && NoOperators(run)
    ensures After(w, cal, longer) == Some(u) && NoOperators(longer)
    ensures u == v.(tick := NoTick, clock := v.clock + CLAIM_TTL)
  {
    AfterAppend(w, cal, run, Crash);
    AfterAppend(w, cal, run + [Crash], Wait(CLAIM_TTL));
    longer := run + [Crash] + [Wait(CLAIM_TTL)];
    u := v.(tick := NoTick, clock := v.clock + CLAIM_TTL);
  }

  /**
   A recurring schedule can have a slot claimed twice exactly when it lapses: it finds a run at
   one instant and none at another, at or after that run.
  */
  lemma ClaimedTwiceExactly(id: string, sch: Schedule, cal: Calendar)
    requires Recurs(sch)
    ensures (exists now, run :: ClaimsTwice(id, sch, cal, now, run)) <==> exists c, t :: Lapses(sch, cal, c, t)
  {
    if c, t :| Lapses(sch, cal, c, t) {
      var run := SameSlotTwice(id, sch, cal, c, t);
    } else {
      assert NeverLapses(sch, cal);
      forall now, run ensures !ClaimsTwice(id, sch, cal, now, run) {
        if ClaimsTwice(id, sch, cal, now, run) {
          var job := NewJob(id, cal, sch, now).value;
          NewJobIsStored(id, cal, sch, now);
          SlotsIncrease(job, now, cal, run, After(Start(job, now), cal, run).value);
        }
      }
    }
  }

  /** The slot appears twice among the claimed ones. */
  predicate Repeated(w: World, slot: int) {
    exists i, j | 0 <= i < j < |w.slots| :: w.slots[i] == slot && w.slots[j] == slot
  }

  /** From `t` on nobody's claim protects the job, and its schedule finds no next run at `t`. */
  predicate Exposed(w: World, cal: Calendar, t: int) {
    w.clock <= t && !Fresh(w.job.claim, t) && ComputeNextRun(w.job.schedule, cal, t, None).None?
  }

  ghost predicate Repeats(w: World, cal: Calendar, slot: int, run: seq<Label>) {
    NoOperators(run) && After(w, cal, run).Some? && Repeated(After(w, cal, run).value, slot)
  }

  /**
   Between the listing of a slot and the first claim after it nothing was claimed; from then on
   everything parked, listed or claimed lies beyond the slot.
  */
  predicate Passes(w: World, v: World, slot: int) {
    && v.job.schedule == w.job.schedule && w.clock <= v.clock
    && (v.tick.Listed? || v.tick.Advanced? ==> slot <= v.tick.slot && slot <= v.tick.at <= v.clock)
    && (v.job.nextRunAt.Some? ==> slot <= v.job.nextRunAt.value)
    && if |v.slots| == |w.slots| then v.slots == w.slots && v.job.claim == w.job.claim && !v.tick.Running?
       else
         && |w.slots| < |v.slots| && v.slots[..|w.slots|] == w.slots
         && (forall i | |w.slots| < i < |v.slots| :: v.slots[i] > slot)
         && (v.job.nextRunAt.Some? ==> v.job.nextRunAt.value > slot)
         && (v.tick.Listed? || v.tick.Advanced? ==> v.tick.slot > slot)
  }

  /** Listing and re-arming move what is parked to the present or later, or to what is computed from there. */
  lemma PassesList(w: World, v: World, cal: Calendar, slot: int)
    requires Passes(w, v, slot) && slot <= w.clock && v.tick.NoTick? && Recurs(v.job.schedule) && v.job.schedule.Cron?
    ensures Passes(w, Step(v, cal, TickList), slot)
  {
    if Runnable(v.job) && v.job.nextRunAt.Some? {
      NextRunIsLater(v.job.schedule, cal, v.clock);
      var armed := Rearmed(v.job, cal, v.clock);
      assert armed == v.job.(nextRunAt := armed.nextRunAt) && armed.nextRunAt.Some?;
      var (job, due) := Due(v.job, cal, v.clock);
      assert job == v.job.(nextRunAt := job.nextRunAt);
    }
  }

  lemma PassesMark(w: World, v: World, cal: Calendar, slot: int, l: Label)
    requires Passes(w, v, slot) && slot <= w.clock && l.TickMark? && Enabled(v, l) && v.job.schedule.Cron?
    ensures Passes(w, Step(v, cal, l), slot)
  {
    NextRunIsLater(v.job.schedule, cal, v.clock);
    MarkShape(v.job, cal, Some(v.tick.token), v.clock, l.success, l.status);
    var u := Step(v, cal, l);
    assert u.slots == v.slots && u.clock == v.clock && !u.tick.Listed? && !u.tick.Advanced?;
  }

  lemma PassesStep(w: World, v: World, cal: Calendar, slot: int, l: Label)
    requires Passes(w, v, slot) && slot <= w.clock && w.job.schedule.Cron?
    requires forall t :: !Exposed(w, cal, t)
    requires Enabled(v, l) && !l.Operator?
    ensures Passes(w, Step(v, cal, l), slot)
  {
    match l
    case TickList => PassesList(w, v, cal, slot);
    case TickAdvance => NextRunIsLater(v.job.schedule, cal, v.tick.at);
    case TickClaim =>
      NextRunIsLater(v.job.schedule, cal, v.clock);
      assert !Exposed(w, cal, v.clock);
    case TickMark(_, _, _) => PassesMark(w, v, cal, slot, l);
    case TickHeartbeat(_) =>
    case Crash =>
    case Wait(_) =>
  }

  lemma {:induction false} SlotPasses(w: World, cal: Calendar, slot: int, run: seq<Label>, v: World)
    requires Passes(w, w, slot) && slot <= w.clock && w.job.schedule.Cron? && forall t :: !Exposed(w, cal, t)
    requires NoOperators(run) && After(w, cal, run) == Some(v)
    ensures Passes(w, v, slot)
  {
    if run == [] {
    } else {
      var before, l := run[..|run| - 1], run[|run| - 1];
      assert l in run && forall k | k in before :: k in run;
      SlotPasses(w, cal, slot, before, After(w, cal, before).value);
      PassesStep(w, After(w, cal, before).value, cal, slot, l);
    }
  }

  lemma {:induction false} IntervalStaysAhead(w: World, cal: Calendar, run: seq<Label>, v: World)
    requires SlotsAhead(w) && w.job.schedule.Interval? && NoOperators(run) && After(w, cal, run) == Some(v)
    ensures SlotsAhead(v) && v.job.schedule == w.job.schedule
  {
    if run == [] {
    } else {
      var before, l := run[..|run| - 1], run[|run| - 1];
      assert l in run && forall k | k in before :: k in run;
      IntervalStaysAhead(w, cal, before, After(w, cal, before).value);
      StepKeepsAhead(After(w, cal, before).value, cal, l);
      ScheduleChanges(After(w, cal, before).value, cal, l);
    }
  }

  /** A state in which a due slot is listed or about to be. */
  predicate DueSlot(w: World, slot: int) {
    && SlotsAhead(w) && Runnable(w.job) && w.job.nextRunAt == Some(slot) && slot <= w.clock
    && (w.tick.NoTick? || w.tick == Listed(w.clock, slot))
  }

  lemma SlotRepeats(w: World, cal: Calendar, slot: int, t: int) returns (run: seq<Label>)
    requires DueSlot(w, slot) && Exposed(w, cal, t)
    ensures Repeats(w, cal, slot, run)
  {
    AfterAppend(w, cal, [], Crash);
    AfterAppend(w, cal, [] + [Crash], Wait(t - w.clock));
    var v := w.(tick := NoTick, clock := t);
    var crashed: World;
    run, v := SlotClaimed(w, cal, [] + [Crash] + [Wait(t - w.clock)], v, slot);
    run, crashed := Crashes(w, cal, run, v);
    run, v := SlotClaimed(w, cal, run, crashed, slot);
    assert v.slots[|w.slots|] == slot && v.slots[|w.slots| + 1] == slot;
  }

  /**
   From a state with a due slot, ticks and crashes alone can claim that slot twice exactly when,
   now or later, the job can be claimed at an instant at which its schedule finds no next run.
  */
  lemma SlotRepeatsExactly(w: World, cal: Calendar, slot: int)
    requires DueSlot(w, slot)
    ensures (exists run :: Repeats(w, cal, slot, run)) <==> exists t :: Exposed(w, cal, t)
  {
    if t :| Exposed(w, cal, t) {
      var run := SlotRepeats(w, cal, slot, t);
    } else {
      forall run ensures !Repeats(w, cal, slot, run) {
        if NoOperators(run) && After(w, cal, run).Some? {
          if w.job.schedule.Cron? {
            SlotPasses(w, cal, slot, run, After(w, cal, run).value);
          } else {
            IntervalStaysAhead(w, cal, run, After(w, cal, run).value);
          }
        }
      }
    }
  }

  // ----- one-shots ------------------------------------------------------------------------

  predicate MarkedOnce(w: World) {
    && w.job.schedule.Once?
    && w.marks <= 1
    && (w.marks == 1 ==> w.job.lastRunAt.Some?)
    && (w.job.lastRunAt.Some? ==> w.job.claim.None? && (w.tick.NoTick? || w.tick.Running?))
  }

  predicate StaysOneShot(run: seq<Label>) {
    forall l <- run :: l.Operator? && l.op.Update? ==> l.op.sch.Once?
  }

  /** A job that stays one-shot is marked at most once, through any ticks, pauses, resumes and crashes. */
  lemma {:induction false} OneShotMarkedAtMostOnce(job: Job, clock: int, cal: Calendar, run: seq<Label>)
    requires job.schedule.Once? && job.lastRunAt.None?
    requires After(Start(job, clock), cal, run).Some? && StaysOneShot(run)
    ensures MarkedOnce(After(Start(job, clock), cal, run).value)
  {
    if run == [] {
    } else {
      var before, l := run[..|run| - 1], run[|run| - 1];
      OneShotMarkedAtMostOnce(job, clock, cal, before);
      var w := After(Start(job, clock), cal, before).value;
      assert l in run;
      OneShotStep(w, cal, l);
    }
  }

  lemma OneShotStep(w: World, cal: Calendar, l: Label)
    requires MarkedOnce(w) && Enabled(w, l)
    requires l.Operator? && l.op.Update? ==> l.op.sch.Once?
    ensures MarkedOnce(Step(w, cal, l))
  {
  }
}
