/** Queue mode: who may share a turn, when the buffer is flushed, and what goes wrong. */
module SessionDebounce {
  import opened Text
  import opened GuardEvents
  import opened SessionProtocol
  import opened SessionRuns

  /** The fragments of one group come from one attributable sender, or there is one fragment. */
  predicate OneSender(g: seq<Event>) {
    forall i, j | 0 <= i < j < |g| :: CanMerge(g[i], g[j])
  }

  predicate SpeaksFor(e: Event, g: seq<Event>) {
    g != [] && OneSender(g) && e.kind.TextMessage? && IdentityOf(e) == IdentityOf(g[0])
  }

  ghost predicate OneVoice(s: Session) {
    && (s.slot.None? ==> s.log.slotGroup == [])
    && (s.slot.Some? ==> SpeaksFor(s.slot.value, s.log.slotGroup))
    && (s.buffer.None? ==> s.log.bufferGroup == [])
    && (s.buffer.Some? ==> SpeaksFor(s.buffer.value.event, s.log.bufferGroup))
    && (forall t <- s.frames :: OneSender(s.frames[t].group))
    && (forall g <- s.log.handedGroups :: OneSender(g))
  }

  lemma SameSenderJoins(x: Event, g: seq<Event>, y: Event, h: seq<Event>)
    requires SpeaksFor(x, g) && SpeaksFor(y, h) && CanMerge(x, y)
    ensures SpeaksFor(Merge(x, y, true), g + h)
  {
    assert forall i | 0 <= i < |g + h| :: IdentityOf((g + h)[i]) == IdentityOf(x) by {
      forall i | 0 <= i < |g + h| ensures IdentityOf((g + h)[i]) == IdentityOf(x) {
        if 0 < i < |g| { assert CanMerge(g[0], g[i]); }
        if |g| < i { assert CanMerge(h[0], h[i - |g|]); }
      }
    }
  }

  lemma FlushOneVoice(s: Session)
    requires OneVoice(s)
    ensures OneVoice(Flush(s))
  {
    if s.buffer.Some? {
      if s.slot.None? {
        assert [] + s.log.bufferGroup == s.log.bufferGroup;
      } else if CanMerge(s.slot.value, s.buffer.value.event) {
        SameSenderJoins(s.slot.value, s.log.slotGroup, s.buffer.value.event, s.log.bufferGroup);
      }
    }
  }

  lemma DebounceOneVoice(s: Session, e: Event, cfg: Config, now: int)
    requires OneVoice(s) && Candidate(cfg, e)
    ensures OneVoice(QueueTextDebounce(s, e, cfg, now))
  {
    FlushOneVoice(s);
    var s1 := if s.buffer.Some? && !CanMerge(s.buffer.value.event, e) then Flush(s) else s;
    assert SpeaksFor(e, [e]);
    if s1.buffer.Some? && !CanMerge(s1.buffer.value.event, e) {
      if s1.slot.Some? && CanMerge(s1.slot.value, e) {
        SameSenderJoins(s1.slot.value, s1.log.slotGroup, e, [e]);
      }
    } else if s1.buffer.Some? {
      SameSenderJoins(s1.buffer.value.event, s1.log.bufferGroup, e, [e]);
    } else {
      assert s1.log.bufferGroup + [e] == [e];
    }
  }

  lemma PhaseOneVoice(s: Session, t: nat, p: Phase)
    requires OneVoice(s) && t in s.frames
    ensures OneVoice(SetPhase(s, t, p))
  {
  }

  lemma SpawnDrainOneVoice(s: Session, t: nat, id: nat, spawned: bool)
    requires OneVoice(s) && t in s.frames && s.slot.Some?
    ensures OneVoice(SpawnDrain(s, t, id, spawned))
  {
  }

  lemma ArriveOneVoice(cfg: Config, s: Session, l: Label)
    requires OneVoice(s) && l.Arrive? && Candidate(cfg, l.event)
    ensures OneVoice(HandleMessage(s, l.event, l.lane, cfg, l.now, l.id, l.spawned))
  {
    assert OneVoice(Heal(s));
    DebounceOneVoice(Heal(s), l.event, cfg, l.now);
  }

  lemma FrameOneVoice(s: Session, t: nat, outcome: Outcome, sent: bool)
    requires OneVoice(s) && t in s.frames
    ensures OneVoice(FrameStart(s, t)) && OneVoice(HandlerSettles(s, t, outcome))
    ensures OneVoice(ReplySettles(s, t, sent)) && OneVoice(NoticeSettles(s, t))
  {
    FlushOneVoice(s);
    forall p: Phase ensures OneVoice(SetPhase(s, t, p)) && OneVoice(SetPhase(Flush(s), t, p)) {
      PhaseOneVoice(s, t, p);
      PhaseOneVoice(Flush(s), t, p);
    }
  }

  lemma DrainsOneVoice(s: Session, t: nat, id: nat, spawned: bool)
    requires OneVoice(s) && t in s.frames
    ensures OneVoice(DrainCheck(s, t, id, spawned)) && OneVoice(FinalCheck(s, t, id, spawned))
  {
    if s.slot.Some? {
      var popped := SpawnDrain(s, t, id, spawned);
      SpawnDrainOneVoice(s, t, id, spawned);
      FlushOneVoice(popped);
      PhaseOneVoice(Flush(popped), t, Final);
      PhaseOneVoice(popped, t, Returned);
    } else {
      FlushOneVoice(s);
      PhaseOneVoice(Flush(s), t, Final);
    }
  }

  lemma StepOneVoice(cfg: Config, s: Session, l: Label)
    requires OneVoice(s) && Enabled(s, l)
    requires l.Arrive? ==> Candidate(cfg, l.event)
    ensures OneVoice(Step(cfg, s, l))
  {
    match l
    case Arrive(e, lane, now, id, spawned) => ArriveOneVoice(cfg, s, l);
    case Start(t) => FrameOneVoice(s, t, Silent, true);
    case HandlerDone(t, o) => FrameOneVoice(s, t, o, true);
    case ReplyDone(t, sent) => FrameOneVoice(s, t, Silent, sent);
    case NoticeDone(t) => FrameOneVoice(s, t, Silent, true);
    case Drain(t, id, spawned) => DrainsOneVoice(s, t, id, spawned);
    case Finish(t, id, spawned) => DrainsOneVoice(s, t, id, spawned);
    case Settle(t) => PhaseOneVoice(s, t, Settled);
    case TimerFires => FlushOneVoice(s);
    case RaiseInterrupt =>
  }

  predicate CandidatesOnly(cfg: Config, run: seq<Label>) {
    forall l <- run :: l.Arrive? ==> Candidate(cfg, l.event)
  }

  /** Whatever the senders and timers do, no turn mixes two speakers. */
  lemma {:induction false} NoMixedSpeakers(cfg: Config, run: seq<Label>)
    requires Reaches(cfg, run) && CandidatesOnly(cfg, run)
    ensures OneVoice(StateAfter(cfg, run))
  {
    if run == [] {
    } else {
      var l := run[|run| - 1];
      ReachesPrefix(cfg, run);
      NoMixedSpeakers(cfg, run[..|run| - 1]);
      assert l in run;
      StepOneVoice(cfg, StateAfter(cfg, run[..|run| - 1]), l);
    }
  }

  // ----- the hard cap ---------------------------------------------------------------

  /** An armed flush is due no later than the first buffered arrival plus the hard cap. */
  predicate WithinCap(cfg: Config, s: Session) {
    s.buffer.Some? && s.buffer.value.due.Some? ==>
      s.buffer.value.due.value <= s.buffer.value.firstTs + cfg.hardCapMs
  }

  /** No armed timer is overdue. */
  predicate OnTime(s: Session, now: int) {
    s.buffer.Some? && s.buffer.value.due.Some? ==> now <= s.buffer.value.due.value
  }

  /** The buffer lost its timer to a slot held by another sender. */
  predicate Blocked(s: Session) {
    s.buffer.Some? && s.buffer.value.due.None?
  }

  /** The buffer that an arrival at `now` would extend has already outlived its cap. */
  predicate PastCap(cfg: Config, s: Session, e: Event, now: int) {
    s.buffer.Some? && CanMerge(s.buffer.value.event, e) && s.buffer.value.firstTs + cfg.hardCapMs < now
  }

  /** An arrival re-arms within the cap unless it extends a buffer whose cap has already passed. */
  lemma RearmWithinCap(cfg: Config, s: Session, e: Event, now: int)
    ensures WithinCap(cfg, QueueTextDebounce(s, e, cfg, now)) <==> !PastCap(cfg, s, e, now)
  {
  }

  /** An arrival that reaches the debounce buffer and extends it past its cap. */
  predicate LateExtension(cfg: Config, s: Session, l: Label) {
    && l.Arrive? && l.lane.Queue? && Candidate(cfg, l.event)
    && Heal(s).active.Some? && PastCap(cfg, Heal(s), l.event, l.now)
  }

  lemma FrameStepWithinCap(cfg: Config, s: Session, l: Label)
    requires WithinCap(cfg, s) && Enabled(s, l) && !l.Arrive?
    ensures WithinCap(cfg, Step(cfg, s, l))
  {
  }

  lemma ArrivalWithinCap(cfg: Config, s: Session, l: Label)
    requires WithinCap(cfg, s) && Enabled(s, l) && l.Arrive?
    ensures WithinCap(cfg, Step(cfg, s, l)) <==> !LateExtension(cfg, s, l)
  {
    RearmWithinCap(cfg, Heal(s), l.event, l.now);
  }

  /** With its timer on time, a buffer is extended past its cap only after a flush was blocked. */
  lemma LateMeansBlocked(cfg: Config, s: Session, l: Label)
    requires WithinCap(cfg, s) && LateExtension(cfg, s, l) && OnTime(s, l.now)
    ensures Blocked(s)
  {
  }

  predicate CapKept(cfg: Config, run: seq<Label>)
    requires Reaches(cfg, run)
  {
    WithinCap(cfg, StateAfter(cfg, run)) && (run != [] ==> CapKept(cfg, run[..|run| - 1]))
  }

  predicate ArrivesOnTime(cfg: Config, run: seq<Label>)
    requires Reaches(cfg, run)
  {
    run != [] ==>
      var before, l := run[..|run| - 1], run[|run| - 1];
      ArrivesOnTime(cfg, before) && (l.Arrive? ==> OnTime(StateAfter(cfg, before), l.now))
  }

  predicate ExtendsLate(cfg: Config, run: seq<Label>)
    requires Reaches(cfg, run)
  {
    run != [] && (ExtendsLate(cfg, run[..|run| - 1])
                  || LateExtension(cfg, StateAfter(cfg, run[..|run| - 1]), run[|run| - 1]))
  }

  predicate ExtendsBlockedLate(cfg: Config, run: seq<Label>)
    requires Reaches(cfg, run)
  {
    run != [] &&
    var before := run[..|run| - 1];
    || ExtendsBlockedLate(cfg, before)
    || (Blocked(StateAfter(cfg, before)) && LateExtension(cfg, StateAfter(cfg, before), run[|run| - 1]))
  }

  /**
   Every armed flush of a run is due within the hard cap exactly when no arrival extended a
   buffer past it; with timers on time, exactly when none extended a blocked buffer past it.
  */
  lemma {:induction false} CapOverRuns(cfg: Config, run: seq<Label>)
    requires Reaches(cfg, run)
    ensures CapKept(cfg, run) <==> !ExtendsLate(cfg, run)
    ensures ArrivesOnTime(cfg, run) ==> (CapKept(cfg, run) <==> !ExtendsBlockedLate(cfg, run))
  {
    if run == [] {
    } else {
      var before, l := run[..|run| - 1], run[|run| - 1];
      var s := StateAfter(cfg, before);
      CapOverRuns(cfg, before);
      if CapKept(cfg, before) {
        if l.Arrive? {
          ArrivalWithinCap(cfg, s, l);
        } else {
          FrameStepWithinCap(cfg, s, l);
        }
        if ArrivesOnTime(cfg, run) && LateExtension(cfg, s, l) {
          LateMeansBlocked(cfg, s, l);
        }
      }
    }
  }

  // ----- two runs that show the limits ----------------------------------------------

  function Said(sender: string): Event {
    Event(TextMessage, "x", [], [], Some(Source("p", "", sender, "group", "c")), None, None, false, true)
  }

  lemma SaidIsCandidate(sender: string)
    ensures Candidate(Config(true, 350, 1000), Said(sender))
  {
    assert TrimStart("x") == "x";
    assert TrimEnd("x") == "x";
  }

  const CONFIG := Config(true, 350, 1000)
  const FROM_A := Said("a")
  const FROM_B := Said("b")

  function Running(p: Phase): Session {
    Session(Some(0), None, Some(0), None, map[0 := Frame(FROM_A, 0, p, [FROM_A])], {},
            Log([FROM_A], if p.Ready? then [] else [[FROM_A]], if p.Ready? then [] else [FROM_A], [], [], []))
  }

  predicate Goes(s: Session, l: Label, s': Session) {
    Enabled(s, l) && Step(CONFIG, s, l) == s' && !SpawnFails(l) && (l.Arrive? ==> Candidate(CONFIG, l.event) && OnTime(s, l.now))
  }

  /** One more step of a run whose state is spelled out. */
  lemma Then(run: seq<Label>, l: Label, s: Session, s': Session) returns (longer: seq<Label>)
    requires Reaches(CONFIG, run) && StateAfter(CONFIG, run) == s && AlwaysSpawns(run) && CandidatesOnly(CONFIG, run)
    requires ArrivesOnTime(CONFIG, run) && Goes(s, l, s')
    ensures longer == run + [l] && Reaches(CONFIG, longer) && StateAfter(CONFIG, longer) == s'
    ensures AlwaysSpawns(longer) && CandidatesOnly(CONFIG, longer) && ArrivesOnTime(CONFIG, longer)
  {
    RunAppend(CONFIG, run, l);
    longer := run + [l];
  }

  lemma TurnStarts()
    ensures Goes(INITIAL, Arrive(FROM_A, Queue, 0, 0, true), Running(Ready))
  {
    SaidIsCandidate("a");
  }

  lemma TurnHandled()
    ensures Goes(Running(Ready), Start(0), Running(Handling))
    ensures Goes(Running(Handling), HandlerDone(0, Silent), Running(BeforeDrain))
  {
    assert [] + [[FROM_A]] == [[FROM_A]] && [] + [FROM_A] == [FROM_A];
  }

  lemma TurnEnds()
    ensures Goes(Running(BeforeDrain), Drain(0, 1, true), Running(Final))
  {
  }

  const ARMED := Running(Final).(
    buffer := Some(Buffer(FROM_A, Some(360), 10, 10)),
    log := Running(Final).log.(arrived := [FROM_A, FROM_A], bufferGroup := [FROM_A]))
  const GONE := ARMED.(active := None, owner := None, frames := map[0 := Frame(FROM_A, 0, Returned, [FROM_A])])

  lemma LateText()
    ensures Goes(Running(Final), Arrive(FROM_A, Queue, 10, 1, true), ARMED)
    ensures Goes(ARMED, Finish(0, 2, true), GONE)
    ensures Goes(GONE, TimerFires, Flush(GONE))
  {
    SaidIsCandidate("a");
  }

  /**
   A text buffered between the last flush of a turn and its late-arrival check outlives the
   turn; its timer then fills the slot of an idle session.
  */
  lemma StrandedSlot() returns (run: seq<Label>)
    ensures Reaches(CONFIG, run) && AlwaysSpawns(run) && CandidatesOnly(CONFIG, run) && ArrivesOnTime(CONFIG, run)
    ensures StateAfter(CONFIG, run).slot.Some? && StateAfter(CONFIG, run).active.None?
  {
    TurnStarts();
    TurnHandled();
    TurnEnds();
    LateText();
    run := Then([], Arrive(FROM_A, Queue, 0, 0, true), INITIAL, Running(Ready));
    run := Then(run, Start(0), Running(Ready), Running(Handling));
    run := Then(run, HandlerDone(0, Silent), Running(Handling), Running(BeforeDrain));
    run := Then(run, Drain(0, 1, true), Running(BeforeDrain), Running(Final));
    run := Then(run, Arrive(FROM_A, Queue, 10, 1, true), Running(Final), ARMED);
    run := Then(run, Finish(0, 2, true), ARMED, GONE);
    run := Then(run, TimerFires, GONE, Flush(GONE));
  }

  const BUFFERED := Running(Ready).(
    buffer := Some(Buffer(FROM_A, Some(350), 0, 0)),
    log := Running(Ready).log.(arrived := [FROM_A, FROM_A], bufferGroup := [FROM_A]))
  const SLOTTED := Running(Ready).(
    slot := Some(FROM_A), log := Running(Ready).log.(arrived := [FROM_A, FROM_A], slotGroup := [FROM_A]))
  const SECOND := SLOTTED.(
    buffer := Some(Buffer(FROM_B, Some(750), 400, 400)),
    log := SLOTTED.log.(arrived := [FROM_A, FROM_A, FROM_B], bufferGroup := [FROM_B]))
  const STUCK := SECOND.(buffer := Some(Buffer(FROM_B, None, 400, 400)))
  const LAST_TEXT := Arrive(FROM_B, Queue, 2000, 1, true)

  lemma TwoSpeakers()
    ensures Goes(Running(Ready), Arrive(FROM_A, Queue, 0, 1, true), BUFFERED)
    ensures Goes(BUFFERED, TimerFires, SLOTTED)
    ensures Goes(SLOTTED, Arrive(FROM_B, Queue, 400, 1, true), SECOND)
  {
    SaidIsCandidate("a");
    SaidIsCandidate("b");
  }

  lemma SecondSpeakerBlocked()
    ensures Goes(SECOND, TimerFires, STUCK) && WithinCap(CONFIG, STUCK) && OnTime(STUCK, 2000)
    ensures Goes(STUCK, LAST_TEXT, Step(CONFIG, STUCK, LAST_TEXT)) && !WithinCap(CONFIG, Step(CONFIG, STUCK, LAST_TEXT))
  {
    SaidIsCandidate("b");
    assert "a" != "b";
    assert ["p", "a"][1] != ["p", "b"][1];
  }

  /** A flush blocked by another sender's slot, then a re-arm past the cap, timers on time. */
  lemma CapExceeded() returns (run: seq<Label>)
    ensures Reaches(CONFIG, run) && WithinCap(CONFIG, StateAfter(CONFIG, run))
    ensures Reaches(CONFIG, run + [LAST_TEXT]) && !WithinCap(CONFIG, StateAfter(CONFIG, run + [LAST_TEXT]))
    ensures ArrivesOnTime(CONFIG, run + [LAST_TEXT])
    ensures AlwaysSpawns(run + [LAST_TEXT]) && CandidatesOnly(CONFIG, run + [LAST_TEXT])
  {
    TurnStarts();
    TwoSpeakers();
    SecondSpeakerBlocked();
    run := Then([], Arrive(FROM_A, Queue, 0, 0, true), INITIAL, Running(Ready));
    run := Then(run, Arrive(FROM_A, Queue, 0, 1, true), Running(Ready), BUFFERED);
    run := Then(run, TimerFires, BUFFERED, SLOTTED);
    run := Then(run, Arrive(FROM_B, Queue, 400, 1, true), SLOTTED, SECOND);
    run := Then(run, TimerFires, SECOND, STUCK);
    var longer := Then(run, LAST_TEXT, STUCK, Step(CONFIG, STUCK, LAST_TEXT));
  }
}
