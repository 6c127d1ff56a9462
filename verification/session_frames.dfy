/** The way of one turn through the guard: which awaits it goes through, in which order, and why. */
module SessionFrames {
  import opened Text
  import opened GuardEvents
  import opened SessionProtocol
  import opened SessionRuns

  // ----- the interrupt flag -----------------------------------------------------------------

  /** A drain hands the waiting event on and clears the flag of the turn that drains. */
  predicate ClearsFlag(s: Session, l: Label, e: nat) {
    && (l.Drain? || l.Finish?) && s.slot.Some? && l.task in s.frames && s.frames[l.task].interrupt == e
    && (l.Finish? ==> s.owner.None? || s.owner == Some(l.task))
  }

  /** The interrupt was raised while it was installed, and not cleared since. */
  predicate RaisedSince(cfg: Config, run: seq<Label>, e: nat)
    requires Reaches(cfg, run)
  {
    run != [] &&
    var before, l := run[..|run| - 1], run[|run| - 1];
    var s := StateAfter(cfg, before);
    (l.RaiseInterrupt? && s.active == Some(e)) || (RaisedSince(cfg, before, e) && !ClearsFlag(s, l, e))
  }

  lemma FlagStep(cfg: Config, s: Session, l: Label, e: nat)
    requires Enabled(s, l)
    ensures e in Step(cfg, s, l).raised
       <==> (l.RaiseInterrupt? && s.active == Some(e)) || (e in s.raised && !ClearsFlag(s, l, e))
  {
  }

  /** In every reachable state exactly those flags are set. */
  lemma {:induction false} FlagMeans(cfg: Config, run: seq<Label>, e: nat)
    requires Reaches(cfg, run)
    ensures e in StateAfter(cfg, run).raised <==> RaisedSince(cfg, run, e)
  {
    if run == [] {
    } else {
      ReachesPrefix(cfg, run);
      FlagMeans(cfg, run[..|run| - 1], e);
      FlagStep(cfg, StateAfter(cfg, run[..|run| - 1]), run[|run| - 1], e);
    }
  }

  /** The interrupts in use are those of turns that were spawned. */
  ghost predicate Known(frames: map<nat, Frame>, raised: set<nat>, active: Option<nat>) {
    && (forall e | e in raised :: e in frames)
    && (forall t {:trigger frames[t]} | t in frames :: frames[t].interrupt in frames)
    && (active.Some? ==> active.value in frames)
  }

  ghost predicate FlagsKnown(s: Session) {
    Known(s.frames, s.raised, s.active)
  }

  /** A turn more, or a turn changed, whose interrupt is its own or one in use. */
  lemma KnownUpdate(frames: map<nat, Frame>, raised: set<nat>, active: Option<nat>, t: nat, f: Frame)
    requires Known(frames, raised, active) && (f.interrupt in frames || f.interrupt == t)
    ensures Known(frames[t := f], raised, active) && Known(frames[t := f], raised, None)
    ensures Known(frames[t := f], raised, Some(t)) && Known(frames[t := f], raised, Some(f.interrupt))
  {
  }

  lemma KnownFewer(frames: map<nat, Frame>, raised: set<nat>, active: Option<nat>, fewer: set<nat>)
    requires Known(frames, raised, active) && fewer <= raised
    ensures Known(frames, fewer, active) && Known(frames, fewer, None)
  {
  }

  lemma KnownArrival(cfg: Config, s: Session, l: Label)
    requires FlagsKnown(s) && Enabled(s, l) && l.Arrive?
    ensures FlagsKnown(Step(cfg, s, l))
  {
    KnownFewer(s.frames, s.raised, s.active, s.raised);
    KnownUpdate(s.frames, s.raised, None, l.id, Frame(l.event, l.id, Ready, [l.event]));
  }

  lemma KnownPhase(s: Session, t: nat, p: Phase)
    requires FlagsKnown(s) && t in s.frames
    ensures FlagsKnown(SetPhase(s, t, p)) && FlagsKnown(SetPhase(Flush(s), t, p))
  {
    KnownUpdate(s.frames, s.raised, s.active, t, s.frames[t].(phase := p));
  }

  lemma KnownSpawn(s: Session, t: nat, id: nat, spawned: bool)
    requires FlagsKnown(s) && t in s.frames && id !in s.frames && s.slot.Some?
    ensures FlagsKnown(SpawnDrain(s, t, id, spawned)) && t in SpawnDrain(s, t, id, spawned).frames
  {
    var fewer := s.raised - {s.frames[t].interrupt};
    KnownFewer(s.frames, s.raised, s.active, fewer);
    KnownUpdate(s.frames, fewer, s.active, id,
                Frame(s.slot.value, if s.active.Some? then s.active.value else id, Ready, s.log.slotGroup));
  }

  lemma KnownDrain(s: Session, t: nat, id: nat, spawned: bool)
    requires FlagsKnown(s) && t in s.frames && id !in s.frames
    ensures FlagsKnown(DrainCheck(s, t, id, spawned))
  {
    if s.slot.Some? {
      KnownSpawn(s, t, id, spawned);
      KnownPhase(SpawnDrain(s, t, id, spawned), t, Final);
    } else {
      KnownPhase(s, t, Final);
    }
  }

  lemma KnownFinish(s: Session, t: nat, id: nat, spawned: bool)
    requires FlagsKnown(s) && t in s.frames && id !in s.frames
    ensures FlagsKnown(FinalCheck(s, t, id, spawned))
  {
    KnownPhase(s, t, Returned);
    if s.slot.Some? && !(s.owner.Some? && s.owner.value != t) {
      KnownSpawn(s, t, id, spawned);
      KnownPhase(SpawnDrain(s, t, id, spawned), t, Returned);
    }
  }

  lemma KnownTurn(cfg: Config, s: Session, l: Label)
    requires FlagsKnown(s) && Enabled(s, l) && (l.HandlerDone? || l.ReplyDone? || l.NoticeDone? || l.Settle?)
    ensures FlagsKnown(Step(cfg, s, l))
  {
    var p := TurnShape(cfg, s, l);
    KnownPhase(s, l.task, p);
  }

  lemma KnownStart(s: Session, t: nat)
    requires FlagsKnown(s) && t in s.frames
    ensures FlagsKnown(FrameStart(s, t))
  {
    var g := if s.active.Some? then s.active.value else s.frames[t].interrupt;
    KnownUpdate(s.frames, s.raised, s.active, t, s.frames[t].(interrupt := g, phase := Handling));
  }

  lemma KnownStep(cfg: Config, s: Session, l: Label)
    requires FlagsKnown(s) && Enabled(s, l)
    ensures FlagsKnown(Step(cfg, s, l))
  {
    match l
    case Arrive(_, _, _, _, _) => KnownArrival(cfg, s, l);
    case Drain(t, id, spawned) => KnownDrain(s, t, id, spawned);
    case Finish(t, id, spawned) => KnownFinish(s, t, id, spawned);
    case Start(t) => KnownStart(s, t);
    case TimerFires =>
    case RaiseInterrupt =>
    case _ => KnownTurn(cfg, s, l);
  }

  lemma {:induction false} FlagsStayKnown(cfg: Config, run: seq<Label>)
    requires Reaches(cfg, run)
    ensures FlagsKnown(StateAfter(cfg, run))
  {
    if run == [] {
    } else {
      ReachesPrefix(cfg, run);
      FlagsStayKnown(cfg, run[..|run| - 1]);
      KnownStep(cfg, StateAfter(cfg, run[..|run| - 1]), run[|run| - 1]);
    }
  }

  /** A turn that an arrival starts has an interrupt of its own, not set and not that of any turn before. */
  lemma NewInterrupt(cfg: Config, run: seq<Label>, l: Label)
    requires Reaches(cfg, run) && l.Arrive? && l.spawned && Enabled(StateAfter(cfg, run), l)
    requires Heal(StateAfter(cfg, run)).active.None?
    ensures var s, s' := StateAfter(cfg, run), Step(cfg, StateAfter(cfg, run), l);
            && l.id in s'.frames && s'.frames[l.id] == Frame(l.event, l.id, Ready, [l.event])
            && s'.active == Some(l.id) && s'.owner == Some(l.id) && l.id !in s'.raised
            && forall t | t in s.frames :: s'.frames[t] == s.frames[t] && s.frames[t].interrupt != l.id
  {
    FlagsStayKnown(cfg, run);
  }

  // ----- the way of a turn ------------------------------------------------------------------

  /** What a run shows of one turn; `cut` says that the turn was interrupted with an event waiting. */
  datatype Stop =
    | Started
    | Handled(outcome: Outcome, cut: bool)
    | Replied(sent: bool)
    | Noticed
    | Drained
    | Finished
    | Done

  /** The interrupt of the turn is set and an event is waiting in the slot. */
  predicate CutShort(s: Session, t: nat) {
    t in s.frames && s.frames[t].interrupt in s.raised && s.slot.Some?
  }

  /** The stop a step makes for a turn, if it is a step of that turn. */
  function StopOf(s: Session, l: Label, t: nat): seq<Stop> {
    match l
    case Start(u) => if u == t then [Started] else []
    case HandlerDone(u, o) => if u == t then [Handled(o, CutShort(s, t))] else []
    case ReplyDone(u, sent) => if u == t then [Replied(sent)] else []
    case NoticeDone(u) => if u == t then [Noticed] else []
    case Drain(u, _, _) => if u == t then [Drained] else []
    case Finish(u, _, _) => if u == t then [Finished] else []
    case Settle(u) => if u == t then [Done] else []
    case _ => []
  }

  function Stops(cfg: Config, run: seq<Label>, t: nat): seq<Stop>
    requires Reaches(cfg, run)
  {
    if run == [] then [] else
    var before := run[..|run| - 1];
    Stops(cfg, before, t) + StopOf(StateAfter(cfg, before), run[|run| - 1], t)
  }

  /**
   The whole way of a turn. A reply is sent unless it was cut short; a failed handler is reported
   before the drain; a cancelled handler and a reply that cannot be sent are reported and skip it.
  */
  function Route(outcome: Outcome, cut: bool, sent: bool): seq<Stop> {
    match outcome
    case Reply =>
      if cut then [Started, Handled(Reply, cut), Drained, Finished, Done]
      else if sent then [Started, Handled(Reply, cut), Replied(true), Drained, Finished, Done]
      else [Started, Handled(Reply, cut), Replied(false), Noticed, Finished, Done]
    case Silent => [Started, Handled(Silent, cut), Drained, Finished, Done]
    case Fails => [Started, Handled(Fails, cut), Noticed, Drained, Finished, Done]
    case Cancels => [Started, Handled(Cancels, cut), Noticed, Finished, Done]
  }

  predicate OnRoute(stops: seq<Stop>, outcome: Outcome, cut: bool, sent: bool) {
    |stops| <= |Route(outcome, cut, sent)| && stops == Route(outcome, cut, sent)[..|stops|]
  }

  /** Where a turn that has come this far along its route is suspended. */
  function PhaseOn(outcome: Outcome, cut: bool, sent: bool, n: nat): Phase
    requires n <= |Route(outcome, cut, sent)|
  {
    var route := Route(outcome, cut, sent);
    if n == |route| then Settled else
    match route[n]
    case Started => Ready
    case Handled(_, _) => Handling
    case Replied(_) => Replying
    case Noticed => if outcome.Cancels? then CancelNotice else ErrorNotice(outcome.Fails?)
    case Drained => BeforeDrain
    case Finished => Final
    case Done => Returned
  }

  /** The steps of other turns leave a turn where it is. */
  lemma OthersLeaveIt(cfg: Config, s: Session, l: Label, t: nat)
    requires Enabled(s, l) && t in s.frames && StopOf(s, l, t) == []
    ensures t in Step(cfg, s, l).frames && Step(cfg, s, l).frames[t] == s.frames[t]
  {
  }

  lemma NoStopBefore(cfg: Config, s: Session, l: Label, t: nat)
    requires Enabled(s, l) && t !in s.frames
    ensures StopOf(s, l, t) == []
    ensures t in Step(cfg, s, l).frames ==> Step(cfg, s, l).frames[t].phase.Ready?
  {
  }

  /** The stop that a suspended turn makes next is of this kind. */
  predicate Awaits(p: Phase, stop: Stop) {
    match stop
    case Started => p.Ready?
    case Handled(_, _) => p.Handling?
    case Replied(_) => p.Replying?
    case Noticed => p.ErrorNotice? || p.CancelNotice?
    case Drained => p.BeforeDrain?
    case Finished => p.Final?
    case Done => p.Returned?
  }

  /** Where a stop takes a turn. */
  function Onward(p: Phase, stop: Stop): Phase {
    match stop
    case Started => Handling
    case Handled(outcome, cut) =>
      (match outcome
       case Reply => if cut then BeforeDrain else Replying
       case Silent => BeforeDrain
       case Fails => ErrorNotice(true)
       case Cancels => CancelNotice)
    case Replied(sent) => if sent then BeforeDrain else ErrorNotice(false)
    case Noticed => if p == ErrorNotice(true) then BeforeDrain else Final
    case Drained => Final
    case Finished => Returned
    case Done => Settled
  }

  lemma StopTaken(cfg: Config, s: Session, l: Label, t: nat)
    requires Enabled(s, l) && t in s.frames && StopOf(s, l, t) != []
    ensures |StopOf(s, l, t)| == 1 && Awaits(s.frames[t].phase, StopOf(s, l, t)[0])
    ensures t in Step(cfg, s, l).frames
    ensures Step(cfg, s, l).frames[t].phase == Onward(s.frames[t].phase, StopOf(s, l, t)[0])
  {
  }

  lemma HandledOnRoute(o: Outcome, c: bool, n: nat, outcome: Outcome, cut: bool, sent: bool)
    requires n <= |Route(outcome, cut, sent)| && PhaseOn(outcome, cut, sent, n).Handling?
    ensures n == 1 && Route(o, c, sent)[1] == Handled(o, c)
    ensures Route(o, c, sent)[..1] == Route(outcome, cut, sent)[..1]
    ensures Onward(Handling, Handled(o, c)) == PhaseOn(o, c, sent, 2)
  {
  }

  lemma RepliedOnRoute(x: bool, n: nat, outcome: Outcome, cut: bool, sent: bool)
    requires n <= |Route(outcome, cut, sent)| && PhaseOn(outcome, cut, sent, n).Replying?
    ensures n == 2 && outcome == Reply && !cut && Route(outcome, cut, x)[2] == Replied(x)
    ensures Route(outcome, cut, x)[..2] == Route(outcome, cut, sent)[..2]
    ensures Onward(Replying, Replied(x)) == PhaseOn(outcome, cut, x, 3)
  {
  }

  lemma FixedOnRoute(stop: Stop, n: nat, outcome: Outcome, cut: bool, sent: bool)
    requires n <= |Route(outcome, cut, sent)| && !stop.Handled? && !stop.Replied?
    requires Awaits(PhaseOn(outcome, cut, sent, n), stop)
    ensures n < |Route(outcome, cut, sent)| && Route(outcome, cut, sent)[n] == stop
  {
  }

  lemma OnwardOnRoute(stop: Stop, n: nat, outcome: Outcome, cut: bool, sent: bool)
    requires !stop.Handled? && !stop.Replied?
    requires n < |Route(outcome, cut, sent)| && Route(outcome, cut, sent)[n] == stop
    ensures Onward(PhaseOn(outcome, cut, sent, n), stop) == PhaseOn(outcome, cut, sent, n + 1)
  {
  }

  /** A stop that a turn on its way can make leads on along a route that shares what lies behind. */
  lemma NextOnRoute(stops: seq<Stop>, stop: Stop, p: Phase, outcome: Outcome, cut: bool, sent: bool)
    returns (o: Outcome, c: bool, x: bool)
    requires OnRoute(stops, outcome, cut, sent) && p == PhaseOn(outcome, cut, sent, |stops|) && Awaits(p, stop)
    ensures OnRoute(stops + [stop], o, c, x) && Onward(p, stop) == PhaseOn(o, c, x, |stops| + 1)
  {
    o, c, x := outcome, cut, sent;
    if stop.Handled? {
      o, c := stop.outcome, stop.cut;
      HandledOnRoute(o, c, |stops|, outcome, cut, sent);
    } else if stop.Replied? {
      x := stop.sent;
      RepliedOnRoute(x, |stops|, outcome, cut, sent);
    } else {
      FixedOnRoute(stop, |stops|, outcome, cut, sent);
      OnwardOnRoute(stop, |stops|, outcome, cut, sent);
    }
    OneStopOn(stops, stop, Route(o, c, x));
  }

  lemma OneStopOn(stops: seq<Stop>, stop: Stop, route: seq<Stop>)
    requires |stops| < |route| && stops == route[..|stops|] && route[|stops|] == stop
    ensures stops + [stop] == route[..|stops| + 1]
  {
  }

  /** Every turn of every run is on the way: its stops so far begin a route, and it waits at the next. */
  lemma {:induction false} Itinerary(cfg: Config, run: seq<Label>, t: nat) returns (outcome: Outcome, cut: bool, sent: bool)
    requires Reaches(cfg, run) && t in StateAfter(cfg, run).frames
    ensures OnRoute(Stops(cfg, run, t), outcome, cut, sent)
    ensures StateAfter(cfg, run).frames[t].phase == PhaseOn(outcome, cut, sent, |Stops(cfg, run, t)|)
  {
    if run == [] {
    } else {
      var before, l := run[..|run| - 1], run[|run| - 1];
      ReachesPrefix(cfg, run);
      var s := StateAfter(cfg, before);
      if t !in s.frames {
        NotYet(cfg, before, t);
        NoStopBefore(cfg, s, l, t);
        outcome, cut, sent := Silent, false, false;
      } else {
        var o, c, x := Itinerary(cfg, before, t);
        outcome, cut, sent := OneStepOn(cfg, s, l, t, Stops(cfg, before, t), o, c, x);
      }
    }
  }

  /** One step of the run takes a turn one stop on, or leaves it where it is. */
  lemma OneStepOn(cfg: Config, s: Session, l: Label, t: nat, stops: seq<Stop>, o: Outcome, c: bool, x: bool)
    returns (outcome: Outcome, cut: bool, sent: bool)
    requires Enabled(s, l) && t in s.frames
    requires OnRoute(stops, o, c, x) && s.frames[t].phase == PhaseOn(o, c, x, |stops|)
    ensures t in Step(cfg, s, l).frames && OnRoute(stops + StopOf(s, l, t), outcome, cut, sent)
    ensures Step(cfg, s, l).frames[t].phase == PhaseOn(outcome, cut, sent, |stops + StopOf(s, l, t)|)
  {
    if StopOf(s, l, t) == [] {
      OthersLeaveIt(cfg, s, l, t);
      assert stops + [] == stops;
      outcome, cut, sent := o, c, x;
    } else {
      StopTaken(cfg, s, l, t);
      var stop := StopOf(s, l, t)[0];
      outcome, cut, sent := NextOnRoute(stops, stop, s.frames[t].phase, o, c, x);
      assert StopOf(s, l, t) == [stop];
    }
  }

  lemma {:induction false} NotYet(cfg: Config, run: seq<Label>, t: nat)
    requires Reaches(cfg, run) && t !in StateAfter(cfg, run).frames
    ensures Stops(cfg, run, t) == []
  {
    if run == [] {
    } else {
      var before, l := run[..|run| - 1], run[|run| - 1];
      ReachesPrefix(cfg, run);
      if t in StateAfter(cfg, before).frames { FramesStay(cfg, StateAfter(cfg, before), l, t); }
      NotYet(cfg, before, t);
      NoStopBefore(cfg, StateAfter(cfg, before), l, t);
    }
  }

  lemma FramesStay(cfg: Config, s: Session, l: Label, t: nat)
    requires Enabled(s, l) && t in s.frames
    ensures t in Step(cfg, s, l).frames
  {
  }

  /** And it can always go on: the next stop of its route is a step that is possible now. */
  lemma TurnGoesOn(cfg: Config, run: seq<Label>, t: nat, id: nat)
    returns (outcome: Outcome, cut: bool, sent: bool, l: Label)
    requires Reaches(cfg, run) && t in StateAfter(cfg, run).frames && id !in StateAfter(cfg, run).frames
    ensures OnRoute(Stops(cfg, run, t), outcome, cut, sent)
    ensures Stops(cfg, run, t) == Route(outcome, cut, sent)
         || (Enabled(StateAfter(cfg, run), l) && StopOf(StateAfter(cfg, run), l, t) != [])
  {
    outcome, cut, sent := Itinerary(cfg, run, t);
    match StateAfter(cfg, run).frames[t].phase
    case Ready => l := Start(t);
    case Handling => l := HandlerDone(t, outcome);
    case Replying => l := ReplyDone(t, sent);
    case ErrorNotice(_) => l := NoticeDone(t);
    case CancelNotice => l := NoticeDone(t);
    case BeforeDrain => l := Drain(t, id, true);
    case Final => l := Finish(t, id, true);
    case Returned => l := Settle(t);
    case Settled => l := TimerFires;
  }

  lemma OneStopAtMost(s: Session, l: Label, t: nat)
    ensures |StopOf(s, l, t)| <= 1
  {
  }

  lemma LastStop(stops: seq<Stop>, last: seq<Stop>, n: nat)
    requires |last| <= 1 && n < |stops + last|
    ensures n < |stops| ==> (stops + last)[n] == stops[n]
    ensures n >= |stops| ==> n == |stops| && last == [(stops + last)[n]]
  {
  }

  /** The label that made the stop at a given place of the way. */
  lemma {:induction false} StopMade(cfg: Config, run: seq<Label>, t: nat, n: nat) returns (k: nat)
    requires Reaches(cfg, run) && n < |Stops(cfg, run, t)|
    ensures k < |run| && Reaches(cfg, run[..k]) && |Stops(cfg, run[..k], t)| == n
    ensures StopOf(StateAfter(cfg, run[..k]), run[k], t) == [Stops(cfg, run, t)[n]]
  {
    var before, l := run[..|run| - 1], run[|run| - 1];
    ReachesPrefix(cfg, run);
    var stops, last := Stops(cfg, before, t), StopOf(StateAfter(cfg, before), l, t);
    OneStopAtMost(StateAfter(cfg, before), l, t);
    LastStop(stops, last, n);
    if n < |stops| {
      k := StopMade(cfg, before, t, n);
      assert before[..k] == run[..k];
    } else {
      k := |run| - 1;
    }
  }

  lemma {:induction false} ReachesUpTo(cfg: Config, run: seq<Label>, i: nat)
    requires Reaches(cfg, run) && i <= |run|
    ensures Reaches(cfg, run[..i])
    ensures i < |run| ==> Enabled(StateAfter(cfg, run[..i]), run[i])
    ensures i < |run| ==> Reaches(cfg, run[..i + 1]) && StateAfter(cfg, run[..i + 1]) == Step(cfg, StateAfter(cfg, run[..i]), run[i])
    decreases |run|
  {
    if i == |run| {
      assert run[..i] == run;
    } else {
      var before := run[..|run| - 1];
      ReachesPrefix(cfg, run);
      assert before[..i] == run[..i];
      if i < |before| {
        ReachesUpTo(cfg, before, i);
        assert before[..i + 1] == run[..i + 1];
      } else {
        assert run[..i + 1] == run;
      }
    }
  }

  lemma {:induction false} StopsGrow(cfg: Config, run: seq<Label>, t: nat, i: nat)
    requires Reaches(cfg, run) && i <= |run| && Reaches(cfg, run[..i])
    ensures Stops(cfg, run[..i], t) <= Stops(cfg, run, t)
  {
    if i == |run| {
      assert run[..i] == run;
    } else {
      ReachesPrefix(cfg, run);
      assert run[..|run| - 1][..i] == run[..i];
      StopsGrow(cfg, run[..|run| - 1], t, i);
    }
  }

  lemma NextStop(cfg: Config, run: seq<Label>, t: nat, i: nat)
    requires Reaches(cfg, run) && i < |run| && Reaches(cfg, run[..i]) && Reaches(cfg, run[..i + 1])
    ensures Stops(cfg, run[..i + 1], t) == Stops(cfg, run[..i], t) + StopOf(StateAfter(cfg, run[..i]), run[i], t)
  {
    assert run[..i + 1][..i] == run[..i];
  }

  /**
   A turn whose handler answered, and that went on to the drain, had its reply sent in between
   exactly when, as the handler answered, its interrupt was not set or no event was waiting.
  */
  lemma ReplyIsSent(cfg: Config, run: seq<Label>, t: nat, i: nat, j: nat)
    requires Reaches(cfg, run) && i < j < |run| && Reaches(cfg, run[..i])
    requires run[i] == HandlerDone(t, Reply) && run[j].Drain? && run[j].task == t
    ensures (exists k | i < k < j :: run[k] == ReplyDone(t, true))
       <==> !CutShort(StateAfter(cfg, run[..i]), t)
  {
    var wasCut := CutShort(StateAfter(cfg, run[..i]), t);
    var stops, n, outcome, cut, sent := AnswerToDrain(cfg, run, t, i, j);
    DrainOnRoute(stops, n, wasCut, outcome, cut, sent);
    if k :| i < k < j && run[k] == ReplyDone(t, true) {
      ReplyAmongStops(cfg, run, t, k, j);
    }
    if !wasCut {
      var k := ReplyFound(cfg, run, t, i, j);
    }
  }

  /** The answer of a turn's handler is among its stops from then on. */
  lemma AnswerSeen(cfg: Config, run: seq<Label>, t: nat, i: nat, j: nat) returns (n: nat)
    requires Reaches(cfg, run) && i < j <= |run| && Reaches(cfg, run[..i]) && Reaches(cfg, run[..j])
    requires run[i] == HandlerDone(t, Reply)
    ensures n < |Stops(cfg, run[..j], t)| && |Stops(cfg, run[..i], t)| == n
    ensures Stops(cfg, run[..j], t)[n] == Handled(Reply, CutShort(StateAfter(cfg, run[..i]), t))
  {
    ReachesUpTo(cfg, run, i);
    NextStop(cfg, run, t, i);
    assert run[..j][..i + 1] == run[..i + 1];
    StopsGrow(cfg, run[..j], t, i + 1);
    n := |Stops(cfg, run[..i], t)|;
    assert Stops(cfg, run[..i + 1], t)[n] == Handled(Reply, CutShort(StateAfter(cfg, run[..i]), t));
  }

  /** And a drain is the stop of its turn that comes next on its route. */
  lemma DrainSeen(cfg: Config, run: seq<Label>, t: nat, j: nat) returns (outcome: Outcome, cut: bool, sent: bool)
    requires Reaches(cfg, run) && j < |run| && run[j].Drain? && run[j].task == t
    ensures Reaches(cfg, run[..j]) && OnRoute(Stops(cfg, run[..j], t) + [Drained], outcome, cut, sent)
  {
    ReachesUpTo(cfg, run, j);
    NextStop(cfg, run, t, j);
    FramesStay(cfg, StateAfter(cfg, run[..j]), run[j], t);
    outcome, cut, sent := Itinerary(cfg, run[..j + 1], t);
  }

  /** The stops of a turn up to its drain, the answer of its handler among them. */
  lemma AnswerToDrain(cfg: Config, run: seq<Label>, t: nat, i: nat, j: nat)
    returns (stops: seq<Stop>, n: nat, outcome: Outcome, cut: bool, sent: bool)
    requires Reaches(cfg, run) && i < j < |run| && Reaches(cfg, run[..i])
    requires run[i] == HandlerDone(t, Reply) && run[j].Drain? && run[j].task == t
    ensures Reaches(cfg, run[..j]) && Reaches(cfg, run[..i + 1])
    ensures stops == Stops(cfg, run[..j], t) && n < |stops| && |Stops(cfg, run[..i], t)| == n
    ensures stops[n] == Handled(Reply, CutShort(StateAfter(cfg, run[..i]), t))
    ensures OnRoute(stops + [Drained], outcome, cut, sent)
  {
    ReachesUpTo(cfg, run, i);
    outcome, cut, sent := DrainSeen(cfg, run, t, j);
    n := AnswerSeen(cfg, run, t, i, j);
    stops := Stops(cfg, run[..j], t);
  }

  lemma ReplyFound(cfg: Config, run: seq<Label>, t: nat, i: nat, j: nat) returns (k: nat)
    requires Reaches(cfg, run) && i < j < |run| && Reaches(cfg, run[..i])
    requires run[i] == HandlerDone(t, Reply) && run[j].Drain? && run[j].task == t
    requires !CutShort(StateAfter(cfg, run[..i]), t)
    ensures i < k < j && run[k] == ReplyDone(t, true)
  {
    var stops, n, outcome, cut, sent := AnswerToDrain(cfg, run, t, i, j);
    DrainOnRoute(stops, n, false, outcome, cut, sent);
    k := StopMade(cfg, run[..j], t, 2);
    assert run[..j][..k] == run[..k] && run[..j][k] == run[k];
    if k <= i {
      StopsUpTo(cfg, run, t, k, i);
    }
  }

  /** A turn that has made two stops before a later step had not made them when it was handled. */
  lemma StopsUpTo(cfg: Config, run: seq<Label>, t: nat, k: nat, i: nat)
    requires Reaches(cfg, run) && k <= i < |run| && Reaches(cfg, run[..i]) && Reaches(cfg, run[..k])
    ensures |Stops(cfg, run[..k], t)| <= |Stops(cfg, run[..i], t)|
  {
    assert run[..i][..k] == run[..k];
    StopsGrow(cfg, run[..i], t, k);
  }

  lemma ReplyAmongStops(cfg: Config, run: seq<Label>, t: nat, k: nat, j: nat)
    requires Reaches(cfg, run) && k < j <= |run| && Reaches(cfg, run[..j]) && run[k] == ReplyDone(t, true)
    ensures Replied(true) in Stops(cfg, run[..j], t)
  {
    ReachesUpTo(cfg, run, k);
    NextStop(cfg, run, t, k);
    assert run[..j][..k + 1] == run[..k + 1];
    StopsGrow(cfg, run[..j], t, k + 1);
    var n := |Stops(cfg, run[..k], t)|;
    assert Stops(cfg, run[..k + 1], t)[n] == Replied(true);
  }

  /** On a route that reaches the drain after an answer, a reply lies before it unless it was cut short. */
  lemma DrainOnRoute(stops: seq<Stop>, n: nat, wasCut: bool, outcome: Outcome, cut: bool, sent: bool)
    requires OnRoute(stops + [Drained], outcome, cut, sent)
    requires n < |stops| && stops[n] == Handled(Reply, wasCut)
    ensures n == 1 && (Replied(true) in stops <==> !wasCut)
    ensures !wasCut ==> |stops| == 3 && stops[2] == Replied(true)
  {
    var route, all := Route(outcome, cut, sent), stops + [Drained];
    assert forall k | 0 <= k < |all| :: all[k] == route[k];
    assert all[n] == stops[n] && all[|stops|] == Drained;
    assert forall k | 0 <= k < |stops| :: stops[k] == route[k];
    if !wasCut {
      assert |stops| == 3 && stops[2] == Replied(true);
    } else {
      assert |stops| == 2;
    }
  }
}
