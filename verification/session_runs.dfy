/** What holds in every reachable state of the session protocol, and how turns relate to arrivals. */
module SessionRuns {
  import opened Text
  import opened GuardEvents
  import opened SessionProtocol

  predicate Reaches(cfg: Config, run: seq<Label>) {
    After(cfg, run).Some?
  }

  function StateAfter(cfg: Config, run: seq<Label>): Session
    requires Reaches(cfg, run)
  {
    After(cfg, run).value
  }

  lemma ReachesPrefix(cfg: Config, run: seq<Label>)
    requires Reaches(cfg, run) && run != []
    ensures Reaches(cfg, run[..|run| - 1])
    ensures Enabled(StateAfter(cfg, run[..|run| - 1]), run[|run| - 1])
    ensures StateAfter(cfg, run) == Step(cfg, StateAfter(cfg, run[..|run| - 1]), run[|run| - 1])
  {
  }

  lemma RunAppend(cfg: Config, run: seq<Label>, l: Label)
    requires Reaches(cfg, run) && Enabled(StateAfter(cfg, run), l)
    ensures Reaches(cfg, run + [l]) && StateAfter(cfg, run + [l]) == Step(cfg, StateAfter(cfg, run), l)
  {
    assert (run + [l])[..|run|] == run;
  }

  /** The steps of a turn between its start and its drain move its phase, perhaps after a flush. */
  lemma TurnShape(cfg: Config, s: Session, l: Label) returns (p: Phase)
    requires Enabled(s, l) && (l.HandlerDone? || l.ReplyDone? || l.NoticeDone? || l.Settle?)
    ensures l.task in s.frames && !s.frames[l.task].phase.Ready? && !p.Ready?
    ensures Step(cfg, s, l) == SetPhase(s, l.task, p) || Step(cfg, s, l) == SetPhase(Flush(s), l.task, p)
  {
    p := Step(cfg, s, l).frames[l.task].phase;
  }

  /** No debounce timer fires while the session is idle. */
  predicate NoIdleTimer(cfg: Config, run: seq<Label>) {
    run != [] ==>
      && NoIdleTimer(cfg, run[..|run| - 1])
      && (run[|run| - 1].TimerFires? && Reaches(cfg, run[..|run| - 1])
          ==> StateAfter(cfg, run[..|run| - 1]).owner.Some?)
  }

  /** Outside queue mode nothing is ever buffered, so no timer is ever armed. */
  lemma {:induction false} InterruptModeHasNoTimer(cfg: Config, run: seq<Label>)
    requires !cfg.queueMode && Reaches(cfg, run)
    ensures StateAfter(cfg, run).buffer.None? && NoIdleTimer(cfg, run)
  {
    if run == [] {
    } else {
      ReachesPrefix(cfg, run);
      InterruptModeHasNoTimer(cfg, run[..|run| - 1]);
    }
  }

  lemma {:induction false} Ownership(cfg: Config, run: seq<Label>)
    requires Reaches(cfg, run) && NoIdleTimer(cfg, run)
    ensures Owned(StateAfter(cfg, run)) && SlotOwned(StateAfter(cfg, run))
  {
    if run == [] {
    } else {
      ReachesPrefix(cfg, run);
      Ownership(cfg, run[..|run| - 1]);
      OwnedStep(cfg, StateAfter(cfg, run[..|run| - 1]), run[|run| - 1]);
    }
  }

  /** A stale lock is healed only in runs where a spawn failed at a late-arrival check. */
  lemma {:induction false} HealNeedsFailedLateSpawn(cfg: Config, run: seq<Label>)
    requires Reaches(cfg, run) && NoIdleTimer(cfg, run)
    requires forall l <- run :: l.Finish? ==> l.spawned
    ensures Live(StateAfter(cfg, run)) && Heal(StateAfter(cfg, run)) == StateAfter(cfg, run)
  {
    Ownership(cfg, run);
    if run == [] {
    } else {
      var before := run[..|run| - 1];
      ReachesPrefix(cfg, run);
      HealNeedsFailedLateSpawn(cfg, before);
      Ownership(cfg, before);
      LiveStep(cfg, StateAfter(cfg, before), run[|run| - 1]);
    }
  }

  /**
   Single flight and no stranding, over every interleaving: guard, owner task and
   unfinished owner frame exist together; one frame at most is inside the handler;
   a filled slot has an owner still ahead of its late-arrival check; nothing to heal.
  */
  lemma SingleFlight(cfg: Config, run: seq<Label>, s: Session)
    requires After(cfg, run) == Some(s) && AlwaysSpawns(run) && NoIdleTimer(cfg, run)
    ensures s.active.Some? <==> s.owner.Some?
    ensures s.owner.Some? <==> exists t <- s.frames :: s.owner == Some(t) && Unfinished(s.frames[t])
    ensures forall t, u :: SuspendedAt(s, t, Handling) && SuspendedAt(s, u, Handling) ==> t == u
    ensures s.slot.Some? ==> s.owner.Some? && s.owner.value in s.frames && Unfinished(s.frames[s.owner.value])
    ensures Heal(s) == s
  {
    Ownership(cfg, run);
    assert forall l <- run :: l.Finish? ==> l.spawned by {
      forall l | l in run && l.Finish? ensures l.spawned { assert !SpawnFails(l); }
    }
    HealNeedsFailedLateSpawn(cfg, run);
  }

  /** A timer that flushes into the slot keeps the slot owned exactly when a turn is running. */
  lemma IdleTimerStrands(s: Session)
    requires Owned(s) && SlotOwned(s) && Enabled(s, TimerFires)
    ensures SlotOwned(Flush(s)) <==> s.active.Some?
  {
  }

  // ----- the slot as a queue of arrivals ------------------------------------------

  /** Arrivals folded into the turn that is spawned but not yet handed over. */
  function ReadyGroup(s: Session): seq<Event> {
    if s.owner.Some? && SuspendedAt(s, s.owner.value, Ready) then s.frames[s.owner.value].group else []
  }

  ghost predicate Folded(s: Session) {
    && |s.log.handed| == |s.log.handedGroups|
    && (forall i | 0 <= i < |s.log.handed| ::
          s.log.handedGroups[i] != [] && s.log.handed[i] == MergeAll(s.log.handedGroups[i]))
    && (s.owner.Some? && SuspendedAt(s, s.owner.value, Ready) ==>
          ReadyGroup(s) != [] && s.frames[s.owner.value].event == MergeAll(ReadyGroup(s)))
    && (s.slot.None? ==> s.log.slotGroup == [])
    && (s.slot.Some? ==> s.log.slotGroup != [] && s.slot.value == MergeAll(s.log.slotGroup))
  }

  predicate InOrder(s: Session) {
    && Flatten(s.log.handedGroups) + ReadyGroup(s) + s.log.slotGroup == s.log.arrived
    && s.log.dropped == []
  }

  /** In interrupt mode, with a live owner, an arrival starts a turn, joins the slot or goes inline. */
  lemma ArrivalShape(cfg: Config, s: Session, l: Label)
    requires Owned(s) && Live(s) && !cfg.queueMode
    requires l.Arrive? && l.spawned && Enabled(s, l)
    ensures Step(cfg, s, l)
         == if s.active.None? then StartProcessing(s, l.event, l.id, true)
            else if l.lane.Inline? then s else MergeIntoSlot(s, l.event)
  {
  }

  lemma NewTurnKeepsOrder(s: Session, e: Event, id: nat)
    requires SlotOwned(s) && Folded(s) && InOrder(s) && s.owner.None?
    ensures Folded(StartProcessing(s, e, id, true)) && InOrder(StartProcessing(s, e, id, true))
  {
    var s' := StartProcessing(s, e, id, true);
    assert ReadyGroup(s') == [e] && ReadyGroup(s) == [] && s.log.slotGroup == [];
  }

  lemma SlotKeepsOrder(s: Session, e: Event)
    requires Folded(s) && InOrder(s)
    ensures Folded(MergeIntoSlot(s, e)) && InOrder(MergeIntoSlot(s, e))
  {
    var s' := MergeIntoSlot(s, e);
    MergeAllAppend(s.log.slotGroup, e);
    assert ReadyGroup(s') == ReadyGroup(s);
  }

  lemma ArrivalKeepsOrder(cfg: Config, s: Session, l: Label)
    requires Owned(s) && SlotOwned(s) && Live(s) && Folded(s) && InOrder(s) && !cfg.queueMode
    requires l.Arrive? && l.spawned && Enabled(s, l)
    ensures Folded(Step(cfg, s, l)) && InOrder(Step(cfg, s, l))
    ensures Step(cfg, s, l).log.arrived
         == s.log.arrived + if s.active.Some? && l.lane.Inline? then [] else [l.event]
  {
    ArrivalShape(cfg, s, l);
    if s.active.None? {
      NewTurnKeepsOrder(s, l.event, l.id);
    } else if l.lane.Queue? {
      SlotKeepsOrder(s, l.event);
    }
  }

  lemma StartKeepsOrder(cfg: Config, s: Session, l: Label)
    requires Owned(s) && Folded(s) && InOrder(s)
    requires l.Start? && Enabled(s, l)
    ensures Folded(Step(cfg, s, l)) && InOrder(Step(cfg, s, l))
  {
    var f := s.frames[l.task];
    assert s.owner == Some(l.task);
    FlattenAppend(s.log.handedGroups, f.group);
  }

  lemma DrainKeepsOrder(cfg: Config, s: Session, l: Label)
    requires Owned(s) && SlotOwned(s) && Folded(s) && InOrder(s) && s.buffer.None?
    requires (l.Drain? || l.Finish?) && l.spawned && Enabled(s, l)
    ensures Folded(Step(cfg, s, l)) && InOrder(Step(cfg, s, l))
    ensures Step(cfg, s, l).log.arrived == s.log.arrived
  {
    var s' := Step(cfg, s, l);
    if s.slot.Some? && s.owner == Some(l.task) {
      assert s'.owner == Some(l.id) && s'.frames[l.id].group == s.log.slotGroup;
      assert ReadyGroup(s) == [] && ReadyGroup(s') == s.log.slotGroup && s'.log.slotGroup == [];
    } else {
      assert s'.log == s.log && s'.slot == s.slot;
      assert ReadyGroup(s) == ReadyGroup(s');
    }
  }

  lemma FrameKeepsOrder(cfg: Config, s: Session, l: Label)
    requires Owned(s) && Folded(s) && InOrder(s) && s.buffer.None?
    requires !l.Arrive? && !l.Start? && !l.Drain? && !l.Finish? && Enabled(s, l)
    ensures Folded(Step(cfg, s, l)) && InOrder(Step(cfg, s, l))
    ensures Step(cfg, s, l).log.arrived == s.log.arrived
  {
    var s' := Step(cfg, s, l);
    assert s'.log == s.log && s'.slot == s.slot && s'.owner == s.owner;
    assert ReadyGroup(s') == ReadyGroup(s);
  }

  function Arrivals(run: seq<Label>): seq<Event> {
    if run == [] then [] else
    var last := if run[|run| - 1].Arrive? then [run[|run| - 1].event] else [];
    Arrivals(run[..|run| - 1]) + last
  }

  predicate AllQueued(run: seq<Label>) {
    forall l <- run :: l.Arrive? ==> l.lane.Queue?
  }

  /**
   The guard refines a queue of arrivals: the turns handed over, the turn about to be
   handed over and the slot are the merge folds of consecutive groups of arrivals, and
   these groups put together are exactly the arrivals, in order. All kinds of traffic.
  */
  lemma {:induction false} FifoRefinement(cfg: Config, run: seq<Label>)
    requires Reaches(cfg, run) && !cfg.queueMode && AlwaysSpawns(run) && AllQueued(run)
    ensures var s := StateAfter(cfg, run);
            Folded(s) && InOrder(s) && s.log.arrived == Arrivals(run)
  {
    if run == [] {
    } else {
      var before, l := run[..|run| - 1], run[|run| - 1];
      ReachesPrefix(cfg, run);
      FifoRefinement(cfg, before);
      InterruptModeHasNoTimer(cfg, before);
      SingleFlight(cfg, before, StateAfter(cfg, before));
      Ownership(cfg, before);
      var s := StateAfter(cfg, before);
      assert !SpawnFails(l);
      if l.Arrive? {
        ArrivalKeepsOrder(cfg, s, l);
      } else if l.Start? {
        StartKeepsOrder(cfg, s, l);
      } else if l.Drain? || l.Finish? {
        DrainKeepsOrder(cfg, s, l);
      } else {
        FrameKeepsOrder(cfg, s, l);
      }
    }
  }

  lemma {:induction false} HandedReadings(groups: seq<seq<Event>>, turns: seq<Event>)
    requires |groups| == |turns|
    requires forall i | 0 <= i < |turns| :: groups[i] != [] && turns[i] == MergeAll(groups[i])
    ensures MediaOf(turns) == MediaOf(Flatten(groups))
    ensures AllPlainText(Flatten(groups)) ==> TextOf(turns) == TextOf(Flatten(groups))
  {
    if turns == [] {
    } else {
      var n := |turns| - 1;
      HandedReadings(groups[..n], turns[..n]);
      ReadingsSplit(Flatten(groups[..n]), groups[n]);
      MergeAllMedia(groups[n]);
      if AllPlainText(Flatten(groups)) {
        assert forall e <- groups[n] :: e in Flatten(groups);
        assert forall e <- Flatten(groups[..n]) :: e in Flatten(groups);
        MergeAllText(groups[n]);
      }
    }
  }

  /** The events the guard still owes to the handler. */
  function Waiting(s: Session): seq<Event> {
    (if s.owner.Some? && SuspendedAt(s, s.owner.value, Ready) then [s.frames[s.owner.value].event] else [])
    + (if s.slot.Some? then [s.slot.value] else [])
  }

  lemma {:induction false} WaitingReadings(s: Session)
    requires Folded(s)
    ensures MediaOf(Waiting(s)) == MediaOf(ReadyGroup(s) + s.log.slotGroup)
    ensures AllPlainText(ReadyGroup(s) + s.log.slotGroup) ==>
              TextOf(Waiting(s)) == TextOf(ReadyGroup(s) + s.log.slotGroup)
  {
    var a, b := ReadyGroup(s), s.log.slotGroup;
    ReadingsSplit(a, b);
    var wa := if a != [] then [MergeAll(a)] else [];
    var wb := if b != [] then [MergeAll(b)] else [];
    ReadingsSplit(wa, wb);
    if a != [] { MergeAllMedia(a); ReadingOfOne(MergeAll(a)); }
    if b != [] { MergeAllMedia(b); ReadingOfOne(MergeAll(b)); }
    if AllPlainText(a + b) {
      assert forall e <- a :: e in a + b;
      assert forall e <- b :: e in a + b;
      if a != [] { MergeAllText(a); }
      if b != [] { MergeAllText(b); }
    }
  }

  lemma ReadingOfOne(e: Event)
    ensures MediaOf([e]) == e.mediaUrls && TextOf([e]) == e.text
  {
    assert [e][..0] == [];
    assert MediaOf([e][..0]) == [] && TextOf([e][..0]) == "";
  }

  /** Nothing said is lost, repeated or reordered: media for all traffic, text for plain text. */
  lemma NothingLost(cfg: Config, run: seq<Label>)
    requires Reaches(cfg, run) && !cfg.queueMode && AlwaysSpawns(run) && AllQueued(run)
    ensures var s := StateAfter(cfg, run);
            && MediaOf(s.log.handed) + MediaOf(Waiting(s)) == MediaOf(Arrivals(run))
            && (AllPlainText(Arrivals(run)) ==>
                  Join("\n", TextOf(s.log.handed), TextOf(Waiting(s))) == TextOf(Arrivals(run)))
  {
    FifoRefinement(cfg, run);
    NothingLostIn(StateAfter(cfg, run));
  }

  lemma Associates(a: seq<Event>, b: seq<Event>, c: seq<Event>)
    ensures a + b + c == a + (b + c)
  {
  }

  lemma NothingLostIn(s: Session)
    requires Folded(s) && InOrder(s)
    ensures MediaOf(s.log.handed) + MediaOf(Waiting(s)) == MediaOf(s.log.arrived)
    ensures AllPlainText(s.log.arrived) ==>
              Join("\n", TextOf(s.log.handed), TextOf(Waiting(s))) == TextOf(s.log.arrived)
  {
    WaitingReadings(s);
    Associates(Flatten(s.log.handedGroups), ReadyGroup(s), s.log.slotGroup);
    ReadingsAddUp(s.log.handedGroups, s.log.handed, ReadyGroup(s) + s.log.slotGroup, Waiting(s), s.log.arrived);
  }

  /** Readings of turns handed over and events waiting, from the fragments folded into them. */
  lemma ReadingsAddUp(groups: seq<seq<Event>>, turns: seq<Event>, rest: seq<Event>, waiting: seq<Event>, all: seq<Event>)
    requires |groups| == |turns|
    requires forall i | 0 <= i < |turns| :: groups[i] != [] && turns[i] == MergeAll(groups[i])
    requires Flatten(groups) + rest == all
    requires MediaOf(waiting) == MediaOf(rest) && (AllPlainText(rest) ==> TextOf(waiting) == TextOf(rest))
    ensures MediaOf(turns) + MediaOf(waiting) == MediaOf(all)
    ensures AllPlainText(all) ==> Join("\n", TextOf(turns), TextOf(waiting)) == TextOf(all)
  {
    var past := Flatten(groups);
    ReadingsSplit(past, rest);
    HandedReadings(groups, turns);
    if AllPlainText(all) {
      assert forall e <- past :: e in past + rest;
      assert forall e <- rest :: e in past + rest;
    }
  }

  /** Once every frame has settled, every accepted arrival has been handed over and the session is idle. */
  lemma QuiescentMeansDelivered(cfg: Config, run: seq<Label>)
    requires Reaches(cfg, run) && !cfg.queueMode && AlwaysSpawns(run) && AllQueued(run)
    requires forall t <- StateAfter(cfg, run).frames :: StateAfter(cfg, run).frames[t].phase.Settled?
    ensures var s := StateAfter(cfg, run);
            s.active.None? && s.slot.None? && Flatten(s.log.handedGroups) == Arrivals(run)
  {
    FifoRefinement(cfg, run);
    InterruptModeHasNoTimer(cfg, run);
    SingleFlight(cfg, run, StateAfter(cfg, run));
    assert ReadyGroup(StateAfter(cfg, run)) == [];
  }
}
