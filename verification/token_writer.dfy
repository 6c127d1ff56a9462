/**
 The coalescing background writer (src/pi_state/usage.ts): queue, worker, flush barrier and
 stop, cut at every await. Applying a batch is total; a worker or waiter that is suspended
 resumes on a notification or when its wait slice runs out.
*/
module TokenWriting {
  import opened Text
  import opened TokenUsage

  datatype Worker = Waiting | Retiring | Gone

  /** A suspended flush remembers what had been enqueued when it was called. */
  datatype Flusher = Flusher(before: seq<Queued>)

  datatype State = State(
    queue: seq<Queued>,
    busy: bool,
    writerActive: bool,
    stopped: bool,
    workers: map<nat, Worker>,
    flushers: map<nat, Flusher>,
    stopping: bool,             // a stop is suspended
    enqueued: seq<Queued>,      // everything enqueued before stop, in order
    applied: seq<Queued>,       // everything handed to apply from the queue, in order
    direct: seq<Queued>,        // applied synchronously after stop
    batches: seq<seq<Queued>>)  // everything the tables have seen, batch by batch, in order

  const INITIAL := State([], false, false, false, map[], map[], false, [], [], [], [])

  /** Takes and applies the whole queue. */
  function DrainQueue(s: State): State {
    if s.queue == [] then s
    else s.(queue := [], applied := s.applied + s.queue, batches := s.batches + [s.queue])
  }

  /** The worker loop from its head to its next suspension; `idle` says the retirement time has passed. */
  function RunWorker(s: State, w: nat, idle: bool): State {
    var d := DrainQueue(s);
    if !s.stopped && !idle then d.(workers := d.workers[w := Waiting])
    else d.(writerActive := false, workers := d.workers[w := Retiring])
  }

  function Enqueue(s: State, q: Queued, w: nat, idle: bool): State {
    if s.stopped then s.(direct := s.direct + [q], batches := s.batches + [[q]]) else
    var s1 := s.(queue := s.queue + [q], enqueued := s.enqueued + [q]);
    if s1.writerActive then s1 else RunWorker(s1.(writerActive := true), w, idle)
  }

  /** Whether a flush can return at once: nothing left, or it drains the queue itself. */
  predicate FlushDone(s: State) {
    (s.queue == [] && !s.busy) || (!s.writerActive && !s.busy)
  }

  function FlushDrain(s: State): State {
    if s.queue == [] && !s.busy then s else DrainQueue(s)
  }

  function StopDrain(s: State): State {
    DrainQueue(s).(stopping := false)
  }

  datatype Label =
    | Put(q: Queued, worker: nat, idle: bool)
    | WorkerWakes(worker: nat, idle: bool)
    | WorkerExits(worker: nat)
    | FlushCalled(flush: nat, timedOut: bool)
    | FlushWakes(flush: nat, timedOut: bool)
    | StopCalled(timedOut: bool)
    | StopWakes(timedOut: bool)

  predicate Enabled(s: State, l: Label) {
    match l
    case Put(_, w, _) => w !in s.workers
    case WorkerWakes(w, _) => w in s.workers && s.workers[w].Waiting?
    case WorkerExits(w) => w in s.workers && s.workers[w].Retiring?
    case FlushCalled(f, _) => f !in s.flushers
    case FlushWakes(f, _) => f in s.flushers
    case StopCalled(_) => !s.stopping
    case StopWakes(_) => s.stopping
  }

  /** The result of a flush step, when it returns. */
  function FlushResult(s: State, l: Label): Option<bool> {
    if l.FlushCalled? || l.FlushWakes? then
      if FlushDone(s) then Some(true) else if l.timedOut then Some(false) else None
    else None
  }

  function Step(s: State, l: Label): State
    requires Enabled(s, l)
  {
    match l
    case Put(q, w, idle) => Enqueue(s, q, w, idle)
    case WorkerWakes(w, idle) => RunWorker(s, w, idle)
    case WorkerExits(w) => s.(writerActive := false, workers := s.workers[w := Gone])
    case FlushCalled(f, timedOut) =>
      if FlushDone(s) then FlushDrain(s)
      else if timedOut then s else s.(flushers := s.flushers[f := Flusher(s.enqueued)])
    case FlushWakes(f, timedOut) =>
      if FlushDone(s) then FlushDrain(s).(flushers := s.flushers - {f})
      else if timedOut then s.(flushers := s.flushers - {f}) else s
    case StopCalled(timedOut) => StopTurn(s.(stopped := true, stopping := true), timedOut)
    case StopWakes(timedOut) => StopTurn(s, timedOut)
  }

  function StopTurn(s: State, timedOut: bool): State {
    if s.writerActive || s.busy then (if timedOut then s.(stopping := false) else s) else StopDrain(s)
  }

  predicate HasLiveWorker(s: State) {
    exists w <- s.workers :: s.workers[w].Waiting?
  }

  /** Conservation, no batch in flight at a suspension, and a live worker wherever one is needed. */
  ghost predicate Sound(s: State) {
    && s.applied + s.queue == s.enqueued
    && !s.busy
    && (s.writerActive ==> HasLiveWorker(s))
    && (s.queue != [] ==> HasLiveWorker(s))
    && (forall f <- s.flushers :: s.flushers[f].before <= s.enqueued)
  }

  lemma RunWorkerSound(s: State, w: nat, idle: bool)
    requires s.applied + s.queue == s.enqueued && !s.busy
    requires forall f <- s.flushers :: s.flushers[f].before <= s.enqueued
    ensures Sound(RunWorker(s, w, idle))
  {
    var s' := RunWorker(s, w, idle);
    assert w in s'.workers;
  }

  lemma StepSound(s: State, l: Label)
    requires Sound(s) && Enabled(s, l)
    ensures Sound(Step(s, l))
  {
    match l
    case Put(q, w, idle) =>
      if !s.stopped {
        var s1 := s.(queue := s.queue + [q], enqueued := s.enqueued + [q]);
        assert s.applied + (s.queue + [q]) == s.enqueued + [q];
        if !s.writerActive { RunWorkerSound(s1.(writerActive := true), w, idle); }
      }
    case WorkerWakes(w, idle) => RunWorkerSound(s, w, idle);
    case WorkerExits(w) =>
      if HasLiveWorker(s) {
        var v :| v in s.workers && s.workers[v].Waiting?;
        assert Step(s, l).workers[v].Waiting?;
      }
    case _ =>
  }

  function After(run: seq<Label>): Option<State> {
    if run == [] then Some(INITIAL) else
    var s := After(run[..|run| - 1]);
    if s.Some? && Enabled(s.value, run[|run| - 1]) then Some(Step(s.value, run[|run| - 1])) else None
  }

  /**
   Over every interleaving of enqueues, worker turns, flushes and stops: what was applied,
   followed by what is queued, is what was enqueued; an active flag or a non-empty queue has a
   live worker behind it, although an exiting worker clears the flag a second time.
  */
  lemma {:induction false} WriterConserves(run: seq<Label>)
    requires After(run).Some?
    ensures Sound(After(run).value)
  {
    if run == [] {
    } else {
      WriterConserves(run[..|run| - 1]);
      StepSound(After(run[..|run| - 1]).value, run[|run| - 1]);
    }
  }

  /** A flush that returns true leaves nothing it was called for unapplied. */
  lemma FlushIsBarrier(run: seq<Label>, l: Label)
    requires After(run).Some? && Enabled(After(run).value, l)
    requires FlushResult(After(run).value, l) == Some(true)
    ensures var s := After(run).value;
            var before := if l.FlushWakes? then s.flushers[l.flush].before else s.enqueued;
            var s' := Step(s, l);
            before <= s'.applied && s'.applied == s'.enqueued && s'.queue == []
  {
    WriterConserves(run);
    var s := After(run).value;
    assert s.applied + s.queue == s.enqueued;
  }

  /** A stop that completes, rather than timing out, has applied everything. */
  lemma StopDrainsAll(run: seq<Label>, l: Label)
    requires After(run).Some? && Enabled(After(run).value, l)
    requires l == StopCalled(false) || l == StopWakes(false)
    ensures var s' := Step(After(run).value, l);
            !s'.stopping ==> s'.applied == s'.enqueued && s'.queue == []
  {
    WriterConserves(run);
  }

  /**
   When a flush returns: at once with true when nothing is queued, or no worker is at work, in
   which case it applies the queue itself; with false only on its time-out; else it waits.
  */
  lemma FlushReturns(run: seq<Label>, s: State, f: nat, timedOut: bool)
    requires After(run) == Some(s) && f !in s.flushers
    ensures FlushResult(s, FlushCalled(f, timedOut))
         == if s.queue == [] || !s.writerActive then Some(true) else if timedOut then Some(false) else None
    ensures var s' := Step(s, FlushCalled(f, timedOut));
            if s.queue == [] || !s.writerActive then s' == s.(queue := [], applied := s.enqueued, batches := s'.batches)
            else s' == s.(flushers := if timedOut then s.flushers else s.flushers[f := Flusher(s.enqueued)])
  {
    WriterConserves(run);
  }

  /** And so when it is woken: a flush that returns is forgotten, one that waits is remembered as it was. */
  lemma FlushGoesOn(run: seq<Label>, s: State, f: nat, timedOut: bool)
    requires After(run) == Some(s) && f in s.flushers
    ensures FlushResult(s, FlushWakes(f, timedOut))
         == if s.queue == [] || !s.writerActive then Some(true) else if timedOut then Some(false) else None
    ensures var s' := Step(s, FlushWakes(f, timedOut));
            && s'.flushers == (if FlushResult(s, FlushWakes(f, timedOut)).Some? then s.flushers - {f} else s.flushers)
            && s'.queue == (if s.writerActive then s.queue else [])
            && s'.applied + s'.queue == s.enqueued
  {
    WriterConserves(run);
  }

  /** A stop waits for the worker until it times out; without one it applies all that is left. */
  lemma StopMeans(run: seq<Label>, s: State, timedOut: bool)
    requires After(run) == Some(s) && !s.stopping
    ensures var s' := Step(s, StopCalled(timedOut));
            && s'.stopped && (s'.stopping <==> s.writerActive && !timedOut)
            && s'.queue == (if s.writerActive then s.queue else [])
            && s'.applied + s'.queue == s.enqueued && s'.workers == s.workers && s'.writerActive == s.writerActive
  {
    WriterConserves(run);
  }

  lemma StopGoesOn(run: seq<Label>, s: State, timedOut: bool)
    requires After(run) == Some(s) && s.stopping
    ensures var s' := Step(s, StopWakes(timedOut));
            && s'.stopped == s.stopped && (s'.stopping <==> s.writerActive && !timedOut)
            && s'.queue == (if s.writerActive then s.queue else [])
            && s'.applied + s'.queue == s.enqueued && s'.workers == s.workers && s'.writerActive == s.writerActive
  {
    WriterConserves(run);
  }

  lemma StopSets(s: State, l: Label)
    requires Enabled(s, l)
    ensures Step(s, l).stopped <==> s.stopped || l.StopCalled?
  {
  }

  /** The writer is stopped exactly from the first call of stop on. */
  lemma {:induction false} StoppedSince(run: seq<Label>)
    requires After(run).Some?
    ensures After(run).value.stopped <==> exists l | l in run :: l.StopCalled?
  {
    if run == [] {
    } else {
      var before, l := run[..|run| - 1], run[|run| - 1];
      StoppedSince(before);
      StopSets(After(before).value, l);
      assert run == before + [l];
    }
  }

  /** A worker that retires waits for nothing more, and is gone when it exits. */
  lemma WorkersEnd(s: State, l: Label)
    requires Enabled(s, l)
    ensures l.WorkerExits? ==> Step(s, l).workers == s.workers[l.worker := Gone] && !Step(s, l).writerActive
    ensures l.WorkerWakes? ==>
              Step(s, l).workers == s.workers[l.worker := if s.stopped || l.idle then Retiring else Waiting]
    ensures l.Put? && (s.stopped || s.writerActive) ==> Step(s, l).workers == s.workers
    ensures l.Put? && !s.stopped && !s.writerActive ==>
              Step(s, l).workers == s.workers[l.worker := if l.idle then Retiring else Waiting]
  {
  }

  lemma AfterAppend(run: seq<Label>, l: Label)
    requires After(run).Some? && Enabled(After(run).value, l)
    ensures After(run + [l]) == Some(Step(After(run).value, l))
  {
    assert (run + [l])[..|run|] == run;
  }

  // ----- what the tables mean ------------------------------------------------------------

  /** The deltas callers handed over in a run, in order. */
  function Puts(run: seq<Label>): seq<Queued> {
    if run == [] then [] else
    var l := run[|run| - 1];
    Puts(run[..|run| - 1]) + if l.Put? then [l.q] else []
  }

  /** Batches and queue hold every delta once, in the order of the calls until one comes after a stop. */
  ghost predicate Recorded(s: State, puts: seq<Queued>) {
    && s.enqueued + s.direct == puts
    && (!s.stopped ==> s.direct == [])
    && (s.direct == [] ==> Flatten(s.batches) == s.applied)
    && multiset(Flatten(s.batches)) == multiset(s.applied + s.direct)
  }

  lemma DrainRecorded(s: State, puts: seq<Queued>)
    requires Recorded(s, puts)
    ensures Recorded(DrainQueue(s), puts)
  {
    FlattenAppend(s.batches, s.queue);
  }

  lemma PutRecorded(s: State, q: Queued, w: nat, idle: bool, puts: seq<Queued>)
    requires Recorded(s, puts)
    ensures Recorded(Enqueue(s, q, w, idle), puts + [q])
  {
    if s.stopped {
      FlattenAppend(s.batches, [q]);
      assert s.enqueued + (s.direct + [q]) == puts + [q];
      assert s.applied + (s.direct + [q]) == s.applied + s.direct + [q];
    } else {
      var s1 := s.(queue := s.queue + [q], enqueued := s.enqueued + [q], writerActive := true);
      assert (s.enqueued + [q]) + [] == puts + [q] by { assert s.enqueued + [] == s.enqueued; }
      DrainRecorded(s1, puts + [q]);
    }
  }

  predicate SameRecord(a: State, b: State) {
    && a.enqueued == b.enqueued && a.direct == b.direct && a.applied == b.applied && a.batches == b.batches
    && (a.stopped ==> b.stopped)
  }

  /** Everything but a new delta leaves what is recorded alone or drains the queue. */
  lemma OtherSteps(s: State, l: Label)
    requires Enabled(s, l) && !l.Put?
    ensures SameRecord(s, Step(s, l)) || SameRecord(DrainQueue(s), Step(s, l))
  {
    var s' := Step(s, l);
    match l
    case WorkerWakes(_, _) => assert SameRecord(DrainQueue(s), s');
    case WorkerExits(_) => assert SameRecord(s, s');
    case FlushCalled(_, _) =>
    case FlushWakes(_, _) =>
    case StopCalled(_) =>
    case StopWakes(_) =>
  }

  lemma OtherRecorded(s: State, l: Label, puts: seq<Queued>)
    requires Recorded(s, puts) && Enabled(s, l) && !l.Put?
    ensures Recorded(Step(s, l), puts)
  {
    OtherSteps(s, l);
    DrainRecorded(s, puts);
  }

  lemma {:induction false} EveryPutRecorded(run: seq<Label>)
    requires After(run).Some?
    ensures Recorded(After(run).value, Puts(run))
  {
    if run == [] {
    } else {
      var before, l := After(run[..|run| - 1]).value, run[|run| - 1];
      var puts := Puts(run[..|run| - 1]);
      EveryPutRecorded(run[..|run| - 1]);
      if l.Put? {
        PutRecorded(before, l.q, l.worker, l.idle, puts);
      } else {
        assert puts + [] == puts;
        OtherRecorded(before, l, puts);
      }
    }
  }

  lemma {:induction false} BatchesRegular(batches: seq<seq<Queued>>)
    requires Regular(Flatten(batches))
    ensures forall b <- batches :: Regular(b)
  {
    if batches == [] {
    } else {
      var front, last := batches[..|batches| - 1], batches[|batches| - 1];
      assert forall q | q in Flatten(front) :: q in Flatten(batches);
      assert forall q | q in last :: q in Flatten(batches);
      BatchesRegular(front);
    }
  }

  /**
   In every reachable state the tables, filled by coalesced batches, mean the batches' deltas
   one by one: each delta handed over once and, until one comes after a stop, in order.
  */
  lemma TablesMeanThePuts(t: Tables, run: seq<Label>, s: State)
    requires After(run) == Some(s)
    requires CallsCounted(t) && Regular(Puts(run))
    ensures SameMeaning(ApplyBatches(t, s.batches), ApplyAll(t, Flatten(s.batches)))
    ensures multiset(Flatten(s.batches)) + multiset(s.queue) == multiset(Puts(run))
    ensures s.direct == [] ==> Flatten(s.batches) + s.queue == Puts(run)
  {
    WriterConserves(run);
    EveryPutRecorded(run);
    assert multiset(Flatten(s.batches)) + multiset(s.queue) == multiset(Puts(run)) by {
      assert Puts(run) == (s.applied + s.queue) + s.direct;
    }
    forall q | q in Flatten(s.batches) ensures q in Puts(run) {
      assert q in multiset(Flatten(s.batches)) + multiset(s.queue);
      assert q in multiset(Puts(run));
    }
    BatchesRegular(s.batches);
    BatchingIsInvisible(t, s.batches);
  }

  // ----- the active flag and the workers ------------------------------------------------------

  /** The flag says whether a worker is alive. */
  predicate Tracks(s: State) {
    s.writerActive <==> HasLiveWorker(s)
  }

  predicate AnotherWaits(s: State, w: nat) {
    exists v <- s.workers :: v != w && s.workers[v].Waiting?
  }

  /** A worker clears the flag, retiring or exiting, while another one waits for work. */
  predicate Overlaps(s: State, l: Label) {
    || (l.WorkerExits? && AnotherWaits(s, l.worker))
    || (l.WorkerWakes? && (s.stopped || l.idle) && AnotherWaits(s, l.worker))
  }

  lemma RunWorkerTracks(s: State, w: nat, idle: bool)
    requires s.writerActive
    ensures Tracks(RunWorker(s, w, idle)) <==> (!s.stopped && !idle) || !AnotherWaits(s, w)
  {
    var s' := RunWorker(s, w, idle);
    assert w in s'.workers;
    assert forall v | v in s.workers && v != w :: v in s'.workers && s'.workers[v] == s.workers[v];
  }

  lemma StepTracks(s: State, l: Label)
    requires Tracks(s) && Enabled(s, l)
    ensures Tracks(Step(s, l)) <==> !Overlaps(s, l)
  {
    match l
    case Put(q, w, idle) =>
      if !s.stopped && !s.writerActive {
        RunWorkerTracks(s.(queue := s.queue + [q], enqueued := s.enqueued + [q], writerActive := true), w, idle);
      }
    case WorkerWakes(w, idle) => RunWorkerTracks(s, w, idle);
    case WorkerExits(w) =>
      var s' := Step(s, l);
      assert forall v | v in s.workers && v != w :: v in s'.workers && s'.workers[v] == s.workers[v];
    case _ =>
  }

  predicate AlwaysTracks(run: seq<Label>)
    requires After(run).Some?
  {
    Tracks(After(run).value) && (run != [] ==> AlwaysTracks(run[..|run| - 1]))
  }

  predicate WorkersOverlap(run: seq<Label>)
    requires After(run).Some?
  {
    run != [] && (WorkersOverlap(run[..|run| - 1]) || Overlaps(After(run[..|run| - 1]).value, run[|run| - 1]))
  }

  /**
   In every state of a run the flag says whether a worker is alive exactly when no worker of
   the run retired or exited while another one was waiting.
  */
  lemma {:induction false} FlagTracksWorkers(run: seq<Label>)
    requires After(run).Some?
    ensures AlwaysTracks(run) <==> !WorkersOverlap(run)
  {
    if run == [] {
    } else {
      var before := run[..|run| - 1];
      FlagTracksWorkers(before);
      if AlwaysTracks(before) {
        StepTracks(After(before).value, run[|run| - 1]);
      }
    }
  }

  /** The flag can be clear while a worker lives: an exit after a respawn clears the newer worker's flag. */
  lemma ClearedFlagLiveWorker(q: Queued) returns (run: seq<Label>)
    ensures After(run).Some? && !After(run).value.writerActive && HasLiveWorker(After(run).value)
  {
    AfterAppend([], Put(q, 0, true));
    var r1 := [] + [Put(q, 0, true)];
    AfterAppend(r1, Put(q, 1, false));
    var r2 := r1 + [Put(q, 1, false)];
    AfterAppend(r2, WorkerExits(0));
    run := r2 + [WorkerExits(0)];
    assert After(run).value.workers[1].Waiting?;
  }

  // ----- the writer object --------------------------------------------------------------

  class TokenWriter {
    var queue: seq<Queued>
    var busy: bool
    var writerActive: bool
    var stopped: bool

    /** The runtime and the history. */
    var workers: map<nat, Worker>
    ghost var flushers: map<nat, Flusher>
    var stopping: bool
    ghost var enqueued: seq<Queued>
    ghost var applied: seq<Queued>
    ghost var direct: seq<Queued>
    ghost var batches: seq<seq<Queued>>

    ghost function View(): State
      reads this
    {
      State(queue, busy, writerActive, stopped, workers, flushers, stopping, enqueued, applied, direct, batches)
    }

    constructor ()
      ensures View() == INITIAL
    {
      queue, busy, writerActive, stopped := [], false, false, false;
      workers, flushers, stopping := map[], map[], false;
      enqueued, applied, direct, batches := [], [], [], [];
    }

    /** Swaps the queue for a batch with the busy flag raised first, then applies the batch. */
    method TakeAndApply()
      requires !busy && queue != []
      modifies this`queue, this`busy, this`applied, this`batches
      ensures View() == DrainQueue(old(View()))
    {
      busy := true;
      var batch := queue;
      queue := [];
      applied, batches := applied + batch, batches + [batch];
      busy := false;
    }

    method WorkerLoop(w: nat, idle: bool)
      requires !busy
      modifies this
      ensures View() == RunWorker(old(View()), w, idle)
    {
      if queue != [] {
        TakeAndApply();
      }
      if !stopped && !idle {
        workers := workers[w := Waiting];
        return;
      }
      writerActive := false;
      workers := workers[w := Retiring];
    }

    method QueueTokenCounts(q: Queued, w: nat, idle: bool)
      requires !busy
      modifies this
      ensures View() == Enqueue(old(View()), q, w, idle)
    {
      if stopped {
        direct, batches := direct + [q], batches + [[q]];
        return;
      }
      queue := queue + [q];
      enqueued := enqueued + [q];
      if !writerActive {
        writerActive := true;
        WorkerLoop(w, idle);
      }
    }

    method WorkerExit(w: nat)
      modifies this`writerActive, this`workers
      ensures View() == old(View()).(writerActive := false, workers := old(workers)[w := Gone])
    {
      writerActive := false;
      workers := workers[w := Gone];
    }

    /** One turn of the flush loop: Some(result) when it returns, None when it suspends. */
    method FlushTurn(f: nat, timedOut: bool) returns (result: Option<bool>)
      requires !busy && f in flushers
      modifies this
      ensures View() == Step(old(View()), FlushWakes(f, timedOut))
      ensures result == FlushResult(old(View()), FlushWakes(f, timedOut))
    {
      if queue != [] || busy {
        if !writerActive && !busy {
          TakeAndApply();
        } else if timedOut {
          flushers := flushers - {f};
          return Some(false);
        } else {
          return None;
        }
      }
      flushers := flushers - {f};
      return Some(true);
    }

    method FlushTokenCounts(f: nat, timedOut: bool) returns (result: Option<bool>)
      requires !busy && f !in flushers
      modifies this
      ensures View() == Step(old(View()), FlushCalled(f, timedOut))
      ensures result == FlushResult(old(View()), FlushCalled(f, timedOut))
    {
      if queue == [] && !busy { return Some(true); }
      if !writerActive && !busy {
        TakeAndApply();
        return Some(true);
      }
      if timedOut { return Some(false); }
      flushers := flushers[f := Flusher(enqueued)];
      return None;
    }

    /** One turn of stop: it waits for the worker flag, then applies what is left. */
    method StopTurnNow(timedOut: bool)
      requires !busy && stopping
      modifies this
      ensures View() == StopTurn(old(View()), timedOut)
    {
      if writerActive || busy {
        if timedOut { stopping := false; }
        return;
      }
      if queue != [] {
        TakeAndApply();
      }
      stopping := false;
    }
  }
}
