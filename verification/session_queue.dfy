/** Queue mode as a whole: where every arrival is, what the bursts say, and what is lost and when. */
module SessionQueue {
  import opened Text
  import opened GuardEvents
  import opened SessionProtocol
  import opened SessionRuns
  import opened SessionDebounce

  // ----- where every arrival is -------------------------------------------------------------

  /** The arrivals of a run the guard deals with: all but those that go inline while a turn is running. */
  function Queued(cfg: Config, run: seq<Label>): seq<Event>
    requires Reaches(cfg, run)
  {
    if run == [] then [] else
    var before, l := run[..|run| - 1], run[|run| - 1];
    Queued(cfg, before)
    + if l.Arrive? && (Heal(StateAfter(cfg, before)).active.None? || l.lane.Queue?) then [l.event] else []
  }

  ghost predicate Kept(s: Session) {
    (s.slot.None? ==> s.log.slotGroup == []) && (s.buffer.None? ==> s.log.bufferGroup == [])
  }

  /** Handed over, about to be, waiting in the slot or in the buffer, or lost. */
  ghost function Counted(s: Session): multiset<Event> {
    Tally(multiset(Flatten(s.log.handedGroups)) + multiset(ReadyGroup(s)), s.log.slotGroup, s.log.bufferGroup, s.log.dropped)
  }

  ghost function Tally(gone: multiset<Event>, slot: seq<Event>, buffer: seq<Event>, dropped: seq<Event>): multiset<Event> {
    gone + multiset(slot) + multiset(buffer) + multiset(dropped)
  }

  lemma TallyFlush(gone: multiset<Event>, slot: seq<Event>, buffer: seq<Event>, dropped: seq<Event>)
    ensures Tally(gone, slot + buffer, [], dropped) == Tally(gone, slot, buffer, dropped)
  {
    assert multiset(slot + buffer) == multiset(slot) + multiset(buffer);
  }

  lemma TallyOneMore(gone: multiset<Event>, slot: seq<Event>, buffer: seq<Event>, dropped: seq<Event>, e: Event)
    ensures Tally(gone, slot + [e], buffer, dropped) == Tally(gone, slot, buffer, dropped) + multiset{e}
    ensures Tally(gone, slot, buffer + [e], dropped) == Tally(gone, slot, buffer, dropped) + multiset{e}
    ensures Tally(gone, slot, buffer, dropped + [e]) == Tally(gone, slot, buffer, dropped) + multiset{e}
  {
    assert multiset(slot + [e]) == multiset(slot) + multiset{e};
    assert multiset(buffer + [e]) == multiset(buffer) + multiset{e};
    assert multiset(dropped + [e]) == multiset(dropped) + multiset{e};
  }

  function Gone(s: Session): multiset<Event> {
    multiset(Flatten(s.log.handedGroups)) + multiset(ReadyGroup(s))
  }

  /** Two states that differ neither in their logs nor in the turn about to start. */
  lemma SameLogs(s: Session, t: Session)
    requires s.log == t.log && ReadyGroup(s) == ReadyGroup(t)
    ensures Counted(s) == Counted(t)
  {
  }

  lemma FlushCounted(s: Session)
    requires Kept(s)
    ensures Kept(Flush(s)) && Counted(Flush(s)) == Counted(s)
  {
    assert Flush(s).frames == s.frames && Flush(s).owner == s.owner && ReadyGroup(Flush(s)) == ReadyGroup(s);
    TallyFlush(Gone(s), s.log.slotGroup, s.log.bufferGroup, s.log.dropped);
  }

  /** Two states with the same turns, the second with one more event in one place. */
  lemma OneMore(s: Session, t: Session, e: Event)
    requires t.frames == s.frames && t.owner == s.owner && t.log.handedGroups == s.log.handedGroups
    requires || (t.log.slotGroup == s.log.slotGroup + [e] && t.log.bufferGroup == s.log.bufferGroup && t.log.dropped == s.log.dropped)
             || (t.log.slotGroup == s.log.slotGroup && t.log.bufferGroup == s.log.bufferGroup + [e] && t.log.dropped == s.log.dropped)
             || (t.log.slotGroup == s.log.slotGroup && t.log.bufferGroup == s.log.bufferGroup && t.log.dropped == s.log.dropped + [e])
    ensures Counted(t) == Counted(s) + multiset{e}
  {
    assert ReadyGroup(t) == ReadyGroup(s);
    TallyOneMore(Gone(s), s.log.slotGroup, s.log.bufferGroup, s.log.dropped, e);
  }

  lemma MergeCounted(s: Session, e: Event)
    requires Kept(s)
    ensures Kept(MergeIntoSlot(s, e)) && Counted(MergeIntoSlot(s, e)) == Counted(s) + multiset{e}
  {
    OneMore(s, MergeIntoSlot(s, e), e);
  }

  lemma DebounceCounted(s: Session, e: Event, cfg: Config, now: int)
    requires Kept(s)
    ensures Kept(QueueTextDebounce(s, e, cfg, now))
    ensures Counted(QueueTextDebounce(s, e, cfg, now)) == Counted(s) + multiset{e}
  {
    FlushCounted(s);
    var s1 := if s.buffer.Some? && !CanMerge(s.buffer.value.event, e) then Flush(s) else s;
    assert Kept(s1) && Counted(s1) == Counted(s);
    OneMore(s1, QueueTextDebounce(s, e, cfg, now), e);
  }

  lemma StartCounted(s: Session, e: Event, id: nat, spawned: bool)
    requires Kept(s) && s.owner.None?
    ensures Kept(StartProcessing(s, e, id, spawned))
    ensures Counted(StartProcessing(s, e, id, spawned)) == Counted(s) + multiset{e}
  {
    var s' := StartProcessing(s, e, id, spawned);
    if spawned {
      assert ReadyGroup(s') == [e] && ReadyGroup(s) == [];
    } else {
      assert ReadyGroup(s') == [] && ReadyGroup(s) == [];
      assert multiset(s.log.dropped + [e]) == multiset(s.log.dropped) + multiset{e};
    }
  }

  lemma HealCounted(s: Session)
    requires Kept(s) && Owned(s)
    ensures Kept(Heal(s)) && Counted(Heal(s)) == Counted(s) && Owned(Heal(s))
  {
    if Heal(s) != s {
      assert ReadyGroup(s) == [] && ReadyGroup(Heal(s)) == [];
      assert multiset(s.log.dropped + s.log.slotGroup + s.log.bufferGroup)
          == multiset(s.log.dropped) + multiset(s.log.slotGroup) + multiset(s.log.bufferGroup);
    }
  }

  lemma ArrivalCounted(cfg: Config, s: Session, l: Label)
    requires Kept(s) && Owned(s) && l.Arrive? && Enabled(s, l)
    ensures Kept(Step(cfg, s, l))
    ensures Counted(Step(cfg, s, l))
         == Counted(s) + if Heal(s).active.None? || l.lane.Queue? then multiset{l.event} else multiset{}
  {
    HealCounted(s);
    var h, s' := Heal(s), Step(cfg, s, l);
    if h.active.None? {
      StartCounted(h, l.event, l.id, l.spawned);
      assert s' == StartProcessing(h, l.event, l.id, l.spawned);
    } else if l.lane.Inline? {
      assert s' == h;
    } else if !l.event.kind.Photo? && Candidate(cfg, l.event) {
      DebounceCounted(h, l.event, cfg, l.now);
      assert s' == QueueTextDebounce(h, l.event, cfg, l.now);
    } else {
      MergeCounted(h, l.event);
      assert s' == MergeIntoSlot(h, l.event);
    }
  }

  lemma SpawnDrainCounted(s: Session, t: nat, id: nat, spawned: bool, p: Phase)
    requires Kept(s) && Owned(s) && t in s.frames && s.slot.Some? && id !in s.frames && !p.Ready?
    requires s.owner.None? || s.owner == Some(t)
    requires s.frames[t].phase.BeforeDrain? || s.frames[t].phase.Final?
    requires s.owner.Some? || !spawned
    ensures var s' := SpawnDrain(s, t, id, spawned); Kept(s') && Counted(SetPhase(s', t, p)) == Counted(s)
  {
    var popped := SpawnDrain(s, t, id, spawned);
    var s' := SetPhase(popped, t, p);
    assert ReadyGroup(s) == [];
    if spawned {
      assert s'.owner == Some(id) && ReadyGroup(s') == s.log.slotGroup;
    } else {
      assert ReadyGroup(s') == [];
      assert multiset(s.log.dropped + s.log.slotGroup) == multiset(s.log.dropped) + multiset(s.log.slotGroup);
    }
  }

  /** A turn that has begun goes on, with or without a flush before. */
  lemma PhaseCounted(s: Session, t: nat, p: Phase)
    requires Kept(s) && t in s.frames && !s.frames[t].phase.Ready? && !p.Ready?
    ensures Kept(SetPhase(s, t, p)) && Counted(SetPhase(s, t, p)) == Counted(s)
    ensures Kept(SetPhase(Flush(s), t, p)) && Counted(SetPhase(Flush(s), t, p)) == Counted(s)
  {
    FlushCounted(s);
    SameLogs(s, SetPhase(s, t, p));
    SameLogs(Flush(s), SetPhase(Flush(s), t, p));
  }

  lemma DrainCounted(s: Session, t: nat, id: nat, spawned: bool)
    requires Kept(s) && Owned(s) && SlotOwned(s) && SuspendedAt(s, t, BeforeDrain) && id !in s.frames
    ensures Kept(DrainCheck(s, t, id, spawned)) && Counted(DrainCheck(s, t, id, spawned)) == Counted(s)
  {
    if s.slot.Some? {
      var popped := SpawnDrain(s, t, id, spawned);
      SpawnDrainCounted(s, t, id, spawned, Final);
      FlushCounted(SetPhase(popped, t, Final));
      assert DrainCheck(s, t, id, spawned) == Flush(SetPhase(popped, t, Final));
    } else {
      PhaseCounted(s, t, Final);
    }
  }

  lemma FinishCounted(s: Session, t: nat, id: nat, spawned: bool)
    requires Kept(s) && Owned(s) && SlotOwned(s) && SuspendedAt(s, t, Final) && id !in s.frames
    ensures Kept(FinalCheck(s, t, id, spawned)) && Counted(FinalCheck(s, t, id, spawned)) == Counted(s)
  {
    if s.slot.Some? && s.owner == Some(t) {
      SpawnDrainCounted(s, t, id, spawned, Returned);
    } else {
      SameLogs(s, FinalCheck(s, t, id, spawned));
    }
  }

  lemma ReadyHandedOver(handed: seq<seq<Event>>, g: seq<Event>)
    ensures multiset(Flatten(handed + [g])) == multiset(Flatten(handed)) + multiset(g)
  {
    FlattenAppend(handed, g);
    assert multiset(Flatten(handed) + g) == multiset(Flatten(handed)) + multiset(g);
  }

  lemma StartedCounted(s: Session, t: nat)
    requires Kept(s) && Owned(s) && SuspendedAt(s, t, Ready)
    ensures Kept(FrameStart(s, t)) && Counted(FrameStart(s, t)) == Counted(s)
  {
    var s' := FrameStart(s, t);
    assert s.owner == Some(t) && ReadyGroup(s) == s.frames[t].group && ReadyGroup(s') == [];
    ReadyHandedOver(s.log.handedGroups, s.frames[t].group);
    assert Gone(s') == Gone(s);
  }

  lemma TurnCounted(cfg: Config, s: Session, l: Label)
    requires Kept(s) && Enabled(s, l) && (l.HandlerDone? || l.ReplyDone? || l.NoticeDone? || l.Settle?)
    ensures Kept(Step(cfg, s, l)) && Counted(Step(cfg, s, l)) == Counted(s)
  {
    var p := TurnShape(cfg, s, l);
    PhaseCounted(s, l.task, p);
  }

  lemma FrameCounted(cfg: Config, s: Session, l: Label)
    requires Kept(s) && Owned(s) && SlotOwned(s) && Enabled(s, l) && !l.Arrive?
    ensures Kept(Step(cfg, s, l)) && Counted(Step(cfg, s, l)) == Counted(s)
  {
    match l
    case Start(t) => StartedCounted(s, t);
    case Drain(t, id, spawned) => DrainCounted(s, t, id, spawned);
    case Finish(t, id, spawned) => FinishCounted(s, t, id, spawned);
    case TimerFires => FlushCounted(s);
    case RaiseInterrupt => SameLogs(s, Step(cfg, s, l));
    case _ => TurnCounted(cfg, s, l);
  }

  /**
   Conservation in every mode and whatever spawns fail: each arrival is, once, in a turn handed
   over, in the turn about to be, in the slot, in the buffer, or among the lost.
  */
  lemma {:induction false} EveryArrivalCounted(cfg: Config, run: seq<Label>)
    requires Reaches(cfg, run) && NoIdleTimer(cfg, run)
    ensures Kept(StateAfter(cfg, run)) && Counted(StateAfter(cfg, run)) == multiset(Queued(cfg, run))
  {
    if run == [] {
    } else {
      var before, l := run[..|run| - 1], run[|run| - 1];
      ReachesPrefix(cfg, run);
      EveryArrivalCounted(cfg, before);
      Ownership(cfg, before);
      var s := StateAfter(cfg, before);
      if l.Arrive? {
        assert multiset(Queued(cfg, before) + [l.event]) == multiset(Queued(cfg, before)) + multiset{l.event};
        ArrivalCounted(cfg, s, l);
      } else {
        assert Queued(cfg, before) + [] == Queued(cfg, before);
        FrameCounted(cfg, s, l);
      }
    }
  }

  // ----- what is lost -------------------------------------------------------------------------

  /** A text that can join neither the buffer of one sender nor the slot of another. */
  predicate ThirdVoice(cfg: Config, s: Session, l: Label) {
    && l.Arrive? && l.lane.Queue? && s.active.Some? && Candidate(cfg, l.event)
    && s.buffer.Some? && s.slot.Some?
    && !CanMerge(s.buffer.value.event, l.event) && !CanMerge(s.slot.value, s.buffer.value.event)
    && !CanMerge(s.slot.value, l.event)
  }

  /** With a live owner and successful spawns a step loses something exactly when a third voice speaks, and then that. */
  lemma LostExactly(cfg: Config, s: Session, l: Label)
    requires Owned(s) && Live(s) && Enabled(s, l) && !SpawnFails(l)
    ensures Step(cfg, s, l).log.dropped == s.log.dropped + if ThirdVoice(cfg, s, l) then [l.event] else []
  {
    if l.Arrive? {
      assert Heal(s) == s;
    }
    assert s.log.dropped + [] == s.log.dropped;
  }

  predicate ThirdVoiceSpoke(cfg: Config, run: seq<Label>)
    requires Reaches(cfg, run)
  {
    run != [] && (ThirdVoiceSpoke(cfg, run[..|run| - 1])
                  || ThirdVoice(cfg, StateAfter(cfg, run[..|run| - 1]), run[|run| - 1]))
  }

  /** Over runs whose spawns succeed nothing is lost exactly when no third voice spoke. */
  lemma {:induction false} NothingLostExactly(cfg: Config, run: seq<Label>)
    requires Reaches(cfg, run) && AlwaysSpawns(run) && NoIdleTimer(cfg, run)
    ensures StateAfter(cfg, run).log.dropped == [] <==> !ThirdVoiceSpoke(cfg, run)
  {
    if run == [] {
    } else {
      var before, l := run[..|run| - 1], run[|run| - 1];
      ReachesPrefix(cfg, run);
      assert l in run && forall k | k in before :: k in run;
      NothingLostExactly(cfg, before);
      SingleFlight(cfg, before, StateAfter(cfg, before));
      Ownership(cfg, before);
      LostExactly(cfg, StateAfter(cfg, before), l);
    }
  }

  // ----- what the bursts say -----------------------------------------------------------------

  /** The message a burst answers to: the last one with an id. */
  function LastId(g: seq<Event>): Option<string> {
    if g == [] then None
    else if g[|g| - 1].messageId.Some? then g[|g| - 1].messageId else LastId(g[..|g| - 1])
  }

  /** And the message it replies to: of a burst the last id, or else the last that a fragment replied to. */
  function Anchor(g: seq<Event>): Option<string> {
    if g == [] then None else
    var last := g[|g| - 1];
    if |g| == 1 then last.replyTo
    else if last.messageId.Some? then last.messageId
    else if last.replyTo.Some? then last.replyTo
    else Anchor(g[..|g| - 1])
  }

  /** A buffered event says all fragments of its burst, line by line, and goes by the last id. */
  predicate Says(e: Event, g: seq<Event>) {
    g != [] && PlainText(e) && e.text == TextOf(g)
  }

  ghost predicate Bursts(s: Session) {
    && Kept(s)
    && (s.slot.Some? ==> Says(s.slot.value, s.log.slotGroup))
    && (s.buffer.Some? ==> Says(s.buffer.value.event, s.log.bufferGroup)
                           && s.buffer.value.event.messageId == LastId(s.log.bufferGroup)
                           && s.buffer.value.event.replyTo == Anchor(s.log.bufferGroup))
    && (s.owner.Some? && SuspendedAt(s, s.owner.value, Ready) ==> Says(s.frames[s.owner.value].event, ReadyGroup(s)))
    && |s.log.handed| == |s.log.handedGroups|
    && (forall i | 0 <= i < |s.log.handed| :: Says(s.log.handed[i], s.log.handedGroups[i]))
  }

  lemma SaysOne(e: Event)
    requires PlainText(e)
    ensures Says(e, [e]) && LastId([e]) == e.messageId && Anchor([e]) == e.replyTo
  {
    assert [e][..0] == [];
  }

  lemma SaysMore(x: Event, g: seq<Event>, y: Event, h: seq<Event>)
    requires Says(x, g) && Says(y, h)
    ensures Says(Merge(x, y, true), g + h)
  {
    ReadingsSplit(g, h);
  }

  lemma ExtendSays(b: Buffer, e: Event, now: int, g: seq<Event>)
    requires Says(b.event, g) && b.event.messageId == LastId(g) && b.event.replyTo == Anchor(g) && PlainText(e)
    ensures Says(Extend(b, e, now).event, g + [e]) && Extend(b, e, now).event.messageId == LastId(g + [e])
    ensures Extend(b, e, now).event.replyTo == Anchor(g + [e])
    ensures Extend(b, e, now).event.source == b.event.source
    ensures Extend(b, e, now).firstTs == b.firstTs && Extend(b, e, now).lastTs == now
  {
    assert (g + [e])[..|g|] == g;
  }

  lemma FlushSays(s: Session)
    requires Bursts(s)
    ensures Bursts(Flush(s))
  {
    assert ReadyGroup(Flush(s)) == ReadyGroup(s);
    if s.buffer.Some? && s.slot.None? {
      assert [] + s.log.bufferGroup == s.log.bufferGroup;
    } else if s.buffer.Some? {
      SaysMore(s.slot.value, s.log.slotGroup, s.buffer.value.event, s.log.bufferGroup);
    }
  }

  lemma MergeSays(s: Session, e: Event)
    requires Bursts(s) && PlainText(e)
    ensures Bursts(MergeIntoSlot(s, e))
  {
    assert ReadyGroup(MergeIntoSlot(s, e)) == ReadyGroup(s);
    SaysOne(e);
    if s.slot.None? {
      assert [] + [e] == [e];
    } else {
      SaysMore(s.slot.value, s.log.slotGroup, e, [e]);
    }
  }

  lemma ArmSays(s1: Session, e: Event, cfg: Config, now: int)
    requires Bursts(s1) && PlainText(e)
    requires s1.buffer.Some? ==> CanMerge(s1.buffer.value.event, e)
    ensures Bursts(QueueTextDebounce(s1, e, cfg, now))
  {
    var s' := QueueTextDebounce(s1, e, cfg, now);
    assert ReadyGroup(s') == ReadyGroup(s1);
    if s1.buffer.None? {
      SaysOne(e);
      assert [] + [e] == [e];
    } else {
      ExtendSays(s1.buffer.value, e, now, s1.log.bufferGroup);
    }
  }

  lemma DebounceSays(s: Session, e: Event, cfg: Config, now: int)
    requires Bursts(s) && PlainText(e)
    ensures Bursts(QueueTextDebounce(s, e, cfg, now))
  {
    if s.buffer.Some? && !CanMerge(s.buffer.value.event, e) {
      FlushSays(s);
      var s1 := Flush(s);
      MergeSays(s1, e);
      if s1.buffer.None? { ArmSays(s1, e, cfg, now); }
    } else {
      ArmSays(s, e, cfg, now);
    }
  }

  lemma ArrivalSays(cfg: Config, s: Session, l: Label)
    requires Bursts(s) && Owned(s) && l.Arrive? && PlainText(l.event) && Enabled(s, l)
    ensures Bursts(Step(cfg, s, l))
  {
    var h := Heal(s);
    assert Bursts(h) by {
      if h != s { assert ReadyGroup(h) == []; }
    }
    if h.active.None? {
      SaysOne(l.event);
    } else {
      MergeSays(h, l.event);
      DebounceSays(h, l.event, cfg, l.now);
    }
  }

  lemma StartSays(s: Session, t: nat)
    requires Bursts(s) && Owned(s) && SuspendedAt(s, t, Ready)
    ensures Bursts(FrameStart(s, t))
  {
    assert s.owner == Some(t) && ReadyGroup(s) == s.frames[t].group;
  }

  lemma TurnSays(cfg: Config, s: Session, l: Label)
    requires Bursts(s) && Enabled(s, l) && (l.HandlerDone? || l.ReplyDone? || l.NoticeDone? || l.Settle?)
    ensures Bursts(Step(cfg, s, l))
  {
    var p := TurnShape(cfg, s, l);
    PhaseSays(s, l.task, p);
  }

  lemma PhaseSays(s: Session, t: nat, p: Phase)
    requires Bursts(s) && t in s.frames && !s.frames[t].phase.Ready? && !p.Ready?
    ensures Bursts(SetPhase(s, t, p)) && Bursts(SetPhase(Flush(s), t, p))
  {
    FlushSays(s);
    assert ReadyGroup(SetPhase(s, t, p)) == ReadyGroup(s);
    assert ReadyGroup(SetPhase(Flush(s), t, p)) == ReadyGroup(Flush(s));
  }

  lemma DrainSays(s: Session, t: nat, id: nat, spawned: bool)
    requires Bursts(s) && Owned(s) && SlotOwned(s) && SuspendedAt(s, t, BeforeDrain) && id !in s.frames
    ensures Bursts(DrainCheck(s, t, id, spawned))
  {
    if s.slot.Some? {
      var popped := SetPhase(SpawnDrain(s, t, id, spawned), t, Final);
      assert spawned ==> ReadyGroup(popped) == s.log.slotGroup && popped.owner == Some(id);
      FlushSays(popped);
    } else {
      FlushSays(s);
    }
  }

  lemma FinishSays(s: Session, t: nat, id: nat, spawned: bool)
    requires Bursts(s) && Owned(s) && SlotOwned(s) && SuspendedAt(s, t, Final) && id !in s.frames
    ensures Bursts(FinalCheck(s, t, id, spawned))
  {
    if s.slot.Some? && s.owner == Some(t) && spawned {
      assert ReadyGroup(FinalCheck(s, t, id, spawned)) == s.log.slotGroup;
    }
  }

  predicate PlainArrivals(run: seq<Label>) {
    forall l | l in run && l.Arrive? :: PlainText(l.event)
  }

  /**
   Over every run of plain texts, in queue mode or not, each turn handed over and whatever waits
   says the fragments folded into it, line by line; a buffered burst goes by its last id and anchor.
  */
  lemma {:induction false} BurstsAreSaid(cfg: Config, run: seq<Label>)
    requires Reaches(cfg, run) && NoIdleTimer(cfg, run) && PlainArrivals(run)
    ensures Bursts(StateAfter(cfg, run))
  {
    if run == [] {
    } else {
      var before, l := run[..|run| - 1], run[|run| - 1];
      ReachesPrefix(cfg, run);
      assert l in run && forall k | k in before :: k in run;
      BurstsAreSaid(cfg, before);
      Ownership(cfg, before);
      var s := StateAfter(cfg, before);
      match l
      case Arrive(_, _, _, _, _) => ArrivalSays(cfg, s, l);
      case Start(t) => StartSays(s, t);
      case Drain(t, id, spawned) => DrainSays(s, t, id, spawned);
      case Finish(t, id, spawned) => FinishSays(s, t, id, spawned);
      case TimerFires => FlushSays(s);
      case RaiseInterrupt =>
      case _ => TurnSays(cfg, s, l);
    }
  }

  /**
   A buffered text is due a window later, or when the hard cap of its burst runs out if that is
   sooner, and at once when it has run out.
  */
  lemma ArmedFor(cfg: Config, s: Session, e: Event, now: int)
    requires s.buffer.Some? ==> CanMerge(s.buffer.value.event, e)
    ensures var b := QueueTextDebounce(s, e, cfg, now).buffer;
            var first := if s.buffer.Some? then s.buffer.value.firstTs else now;
            && b.Some? && b.value.firstTs == first
            && b.value.due == Some(if now + cfg.windowMs <= first + cfg.hardCapMs then now + cfg.windowMs
                                   else if first + cfg.hardCapMs > now then first + cfg.hardCapMs else now)
  {
  }

  // ----- who speaks ---------------------------------------------------------------------------

  /** The sender of an event, or the partner of a direct chat whose sender is not given. */
  predicate SameSpeaker(a: Source, b: Source) {
    var x, y := if a.userIdAlt != "" then a.userIdAlt else a.userId, if b.userIdAlt != "" then b.userIdAlt else b.userId;
    && a.platform == b.platform
    && (if x != "" || y != "" then x == y
        else a.chatId == b.chatId != "" && a.chatType in {"dm", "private"} && b.chatType in {"dm", "private"})
  }

  /** Two events may share a burst exactly when both have a source and these have the same speaker. */
  lemma CanMergeMeans(x: Event, e: Event)
    ensures CanMerge(x, e) <==> x.source.Some? && e.source.Some? && SameSpeaker(x.source.value, e.source.value)
  {
    if x.source.Some? && e.source.Some? && IdentityOf(x).Some? && IdentityOf(e).Some? {
      var a, b := IdentityOf(x).value, IdentityOf(e).value;
      if a == b { assert a[0] == b[0] && a[1] == b[1] && |a| == |b| && (|a| == 3 ==> a[2] == b[2]); }
    }
  }

  lemma {:induction false} FirstSpoken(text: string)
    ensures TrimStart(text) != "" && TrimStart(text)[0] == '/'
       <==> exists i | 0 <= i < |text| :: text[i] == '/' && forall k | 0 <= k < i :: IsSpace(text[k])
    decreases |text|
  {
    if text == "" {
    } else if IsSpace(text[0]) {
      FirstSpoken(text[1..]);
      assert forall k | 0 <= k < |text| - 1 :: text[1..][k] == text[k + 1];
      if i :| 0 <= i < |text| && text[i] == '/' && forall k | 0 <= k < i :: IsSpace(text[k]) {
        assert i > 0 && text[1..][i - 1] == '/';
      }
      if i :| 0 <= i < |text| - 1 && text[1..][i] == '/' && forall k | 0 <= k < i :: IsSpace(text[1..][k]) {
        forall k | 0 <= k < i + 1 ensures IsSpace(text[k]) {
          if k > 0 { assert text[k] == text[1..][k - 1]; }
        }
        assert text[i + 1] == '/';
      }
    } else {
      assert TrimStart(text) == text;
    }
  }

  /** A command is a text that may control and whose first visible character is a slash. */
  lemma CommandMeans(e: Event)
    ensures IsCommand(e)
       <==> e.allowControl && exists i | 0 <= i < |e.text| ::
              e.text[i] == '/' && forall k | 0 <= k < i :: IsSpace(e.text[k])
  {
    FirstSpoken(e.text);
  }
}
