/**
 The per-session turn protocol of the adapter guard
 (src/pi_gateway/guards/l1-adapter-guard.ts), one function per stretch of code
 between two awaits. Every step of the guard touches one session key, so the
 state below is what the four maps and the task runtime hold for one key.
*/
module SessionProtocol {
  import opened Text
  import opened GuardEvents

  /** Where a turn frame is suspended. */
  datatype Phase =
    | Ready                      // spawned, first stretch not entered yet
    | Handling                   // inside the message handler
    | ErrorNotice(inner: bool)   // reporting a failure, from the handler or from later
    | CancelNotice               // reporting a cancellation
    | Replying                   // sending the reply
    | BeforeDrain                // about to look at the slot for the in-band drain
    | Final                      // about to do the late-arrival check
    | Returned                   // body finished, task not yet marked done
    | Settled                    // task done

  /** `group` records which arrivals the turn's event was folded from. */
  datatype Frame = Frame(event: Event, interrupt: nat, phase: Phase, group: seq<Event>)

  /** A debounce buffer; `due` is when its armed timer fires. */
  datatype Buffer = Buffer(event: Event, due: Option<int>, firstTs: int, lastTs: int)

  /** History of one key: accepted arrivals, turns handed to the handler, and the
      arrivals folded into the slot and the buffer. */
  datatype Log = Log(
    arrived: seq<Event>,
    handedGroups: seq<seq<Event>>,
    handed: seq<Event>,
    slotGroup: seq<Event>,
    bufferGroup: seq<Event>,
    dropped: seq<Event>)

  /** `raised` holds the interrupt events whose flag is set. */
  datatype Session = Session(
    active: Option<nat>,
    slot: Option<Event>,
    owner: Option<nat>,
    buffer: Option<Buffer>,
    frames: map<nat, Frame>,
    raised: set<nat>,
    log: Log)

  datatype Config = Config(queueMode: bool, windowMs: nat, hardCapMs: nat)

  /** Inline stands for the bypass and clarify lanes, decided outside this model. */
  datatype Lane = Inline | Queue

  datatype Outcome = Reply | Silent | Fails | Cancels

  const INITIAL := Session(None, None, None, None, map[], {}, Log([], [], [], [], [], []))

  // ----- the stretches of code ------------------------------------------------

  function SetPhase(s: Session, t: nat, p: Phase): Session
    requires t in s.frames
  {
    s.(frames := s.frames[t := s.frames[t].(phase := p)])
  }

  function Heal(s: Session): Session {
    if s.active.Some? && s.owner.Some? && s.owner.value in s.frames && s.frames[s.owner.value].phase.Settled?
    then s.(active := None, slot := None, owner := None, buffer := None,
            log := s.log.(slotGroup := [], bufferGroup := [],
                          dropped := s.log.dropped + s.log.slotGroup + s.log.bufferGroup))
    else s
  }

  function StartProcessing(s: Session, e: Event, id: nat, spawned: bool): Session {
    if spawned then
      s.(active := Some(id), owner := Some(id),
         frames := s.frames[id := Frame(e, id, Ready, [e])],
         log := s.log.(arrived := s.log.arrived + [e]))
    else
      s.(active := None, owner := None, log := s.log.(dropped := s.log.dropped + [e]))
  }

  function MergeIntoSlot(s: Session, e: Event): (r: Session)
    ensures r == s.(slot := r.slot, log := r.log)
  {
    s.(slot := Some(MergedSlot(s.slot, e, e.kind.TextMessage?)),
       log := s.log.(arrived := s.log.arrived + [e], slotGroup := s.log.slotGroup + [e]))
  }

  function Flush(s: Session): (r: Session)
    ensures r == s.(slot := r.slot, buffer := r.buffer, log := r.log)
  {
    if s.buffer.None? then s else
    var b := s.buffer.value;
    if s.slot.Some? && !CanMerge(s.slot.value, b.event) then
      s.(buffer := Some(b.(due := None)))
    else
      s.(buffer := None, slot := Some(MergedSlot(s.slot, b.event, true)),
         log := s.log.(slotGroup := s.log.slotGroup + s.log.bufferGroup, bufferGroup := []))
  }

  predicate Candidate(cfg: Config, e: Event) {
    cfg.queueMode && e.kind.TextMessage? && !e.isInternal && !IsCommand(e) && Trim(e.text) != ""
  }

  function DebounceDelay(cfg: Config, b: Buffer, now: int): int {
    var deadline := if b.lastTs + cfg.windowMs < b.firstTs + cfg.hardCapMs
                    then b.lastTs + cfg.windowMs else b.firstTs + cfg.hardCapMs;
    if deadline > now then deadline - now else 0
  }

  function Extend(b: Buffer, e: Event, now: int): Buffer {
    Buffer(
      b.event.(text := Join("\n", b.event.text, e.text),
               messageId := if e.messageId.Some? then e.messageId else b.event.messageId,
               replyTo := if e.messageId.Some? then e.messageId
                          else if e.replyTo.Some? then e.replyTo else b.event.replyTo),
      b.due, b.firstTs, now)
  }

  function Arm(cfg: Config, b: Buffer, now: int): Buffer {
    b.(due := Some(now + DebounceDelay(cfg, b, now)))
  }

  function QueueTextDebounce(s: Session, e: Event, cfg: Config, now: int): (r: Session)
    ensures r == s.(slot := r.slot, buffer := r.buffer, log := r.log)
  {
    var s1 := if s.buffer.Some? && !CanMerge(s.buffer.value.event, e) then Flush(s) else s;
    if s1.buffer.Some? && !CanMerge(s1.buffer.value.event, e) then
      if s1.slot.Some? && CanMerge(s1.slot.value, e) then MergeIntoSlot(s1, e)
      else s1.(log := s1.log.(dropped := s1.log.dropped + [e]))
    else
      var b := if s1.buffer.None? then Buffer(e, None, now, now) else Extend(s1.buffer.value, e, now);
      s1.(buffer := Some(Arm(cfg, b, now)),
          log := s1.log.(arrived := s1.log.arrived + [e], bufferGroup := s1.log.bufferGroup + [e]))
  }

  function HandleMessage(s0: Session, e: Event, lane: Lane, cfg: Config, now: int, id: nat, spawned: bool): Session {
    var s := Heal(s0);
    if s.active.None? then StartProcessing(s, e, id, spawned)
    else if lane.Inline? then s
    else if e.kind.Photo? then MergeIntoSlot(s, e)
    else if Candidate(cfg, e) then QueueTextDebounce(s, e, cfg, now)
    else MergeIntoSlot(s, e)
  }

  function FrameStart(s: Session, t: nat): Session
    requires t in s.frames
  {
    var f := s.frames[t];
    var g := if s.active.Some? then s.active.value else f.interrupt;
    s.(active := Some(g),
       frames := s.frames[t := f.(interrupt := g, phase := Handling)],
       log := s.log.(handedGroups := s.log.handedGroups + [f.group], handed := s.log.handed + [f.event]))
  }

  function HandlerSettles(s: Session, t: nat, outcome: Outcome): Session
    requires t in s.frames
  {
    match outcome
    case Reply =>
      if s.frames[t].interrupt in s.raised && s.slot.Some? then SetPhase(Flush(s), t, BeforeDrain)
      else SetPhase(s, t, Replying)
    case Silent => SetPhase(Flush(s), t, BeforeDrain)
    case Fails => SetPhase(s, t, ErrorNotice(true))
    case Cancels => SetPhase(s, t, CancelNotice)
  }

  function ReplySettles(s: Session, t: nat, sent: bool): Session
    requires t in s.frames
  {
    if sent then SetPhase(Flush(s), t, BeforeDrain) else SetPhase(s, t, ErrorNotice(false))
  }

  function NoticeSettles(s: Session, t: nat): Session
    requires t in s.frames
  {
    if s.frames[t].phase == ErrorNotice(true) then SetPhase(Flush(s), t, BeforeDrain)
    else SetPhase(Flush(s), t, Final)
  }

  /** Pops the slot, clears the interrupt flag and spawns the next turn. */
  function SpawnDrain(s: Session, t: nat, id: nat, spawned: bool): Session
    requires t in s.frames && s.slot.Some?
  {
    var popped := s.(slot := None, raised := s.raised - {s.frames[t].interrupt}, log := s.log.(slotGroup := []));
    if spawned then
      popped.(owner := Some(id),
              frames := s.frames[id := Frame(s.slot.value, if s.active.Some? then s.active.value else id,
                                             Ready, s.log.slotGroup)])
    else
      popped.(log := popped.log.(dropped := popped.log.dropped + s.log.slotGroup))
  }

  function DrainCheck(s: Session, t: nat, id: nat, spawned: bool): Session
    requires t in s.frames
  {
    SetPhase(Flush(if s.slot.Some? then SpawnDrain(s, t, id, spawned) else s), t, Final)
  }

  function FinalCheck(s: Session, t: nat, id: nat, spawned: bool): Session
    requires t in s.frames
  {
    var s' :=
      if s.slot.Some? then
        if s.owner.Some? && s.owner.value != t then s   // handed back to the owner's slot
        else SpawnDrain(s, t, id, spawned)
      else if s.owner == Some(t) && s.active == Some(s.frames[t].interrupt) then
        s.(active := None, owner := None)
      else s;
    SetPhase(s', t, Returned)
  }

  // ----- runs -------------------------------------------------------------------

  datatype Label =
    | Arrive(event: Event, lane: Lane, now: int, id: nat, spawned: bool)
    | Start(task: nat)
    | HandlerDone(task: nat, outcome: Outcome)
    | ReplyDone(task: nat, sent: bool)
    | NoticeDone(task: nat)
    | Drain(task: nat, id: nat, spawned: bool)
    | Finish(task: nat, id: nat, spawned: bool)
    | Settle(task: nat)
    | TimerFires
    | RaiseInterrupt

  predicate SuspendedAt(s: Session, t: nat, p: Phase) {
    t in s.frames && s.frames[t].phase == p
  }

  /** Every interleaving the runtime allows: any arrival, any suspended frame, an armed timer. */
  predicate Enabled(s: Session, l: Label) {
    match l
    case Arrive(_, _, _, id, _) => id !in s.frames
    case Start(t) => SuspendedAt(s, t, Ready)
    case HandlerDone(t, _) => SuspendedAt(s, t, Handling)
    case ReplyDone(t, _) => SuspendedAt(s, t, Replying)
    case NoticeDone(t) => t in s.frames && (s.frames[t].phase.ErrorNotice? || s.frames[t].phase.CancelNotice?)
    case Drain(t, id, _) => SuspendedAt(s, t, BeforeDrain) && id !in s.frames
    case Finish(t, id, _) => SuspendedAt(s, t, Final) && id !in s.frames
    case Settle(t) => SuspendedAt(s, t, Returned)
    case TimerFires => s.buffer.Some? && s.buffer.value.due.Some?
    case RaiseInterrupt => s.active.Some?
  }

  function Step(cfg: Config, s: Session, l: Label): Session
    requires Enabled(s, l)
  {
    match l
    case Arrive(e, lane, now, id, spawned) => HandleMessage(s, e, lane, cfg, now, id, spawned)
    case Start(t) => FrameStart(s, t)
    case HandlerDone(t, o) => HandlerSettles(s, t, o)
    case ReplyDone(t, sent) => ReplySettles(s, t, sent)
    case NoticeDone(t) => NoticeSettles(s, t)
    case Drain(t, id, spawned) => DrainCheck(s, t, id, spawned)
    case Finish(t, id, spawned) => FinalCheck(s, t, id, spawned)
    case Settle(t) => SetPhase(s, t, Settled)
    case TimerFires => Flush(s)
    case RaiseInterrupt => s.(raised := s.raised + {s.active.value})
  }

  /** The state after a run, or None when the labels are not a run. */
  function After(cfg: Config, run: seq<Label>): Option<Session> {
    if run == [] then Some(INITIAL) else
    var s := After(cfg, run[..|run| - 1]);
    var l := run[|run| - 1];
    if s.Some? && Enabled(s.value, l) then Some(Step(cfg, s.value, l)) else None
  }

  predicate SpawnFails(l: Label) {
    (l.Arrive? || l.Drain? || l.Finish?) && !l.spawned
  }

  predicate AlwaysSpawns(run: seq<Label>) {
    forall l <- run :: !SpawnFails(l)
  }

  // ----- the ownership invariant ------------------------------------------------

  /** A frame that has not yet done its late-arrival check. */
  predicate Unfinished(f: Frame) {
    !f.phase.Returned? && !f.phase.Settled?
  }

  /** Guard and owner exist together; only the owner can be ahead of the late-arrival check. */
  predicate Owned(s: Session) {
    && (s.active.Some? <==> s.owner.Some?)
    && (s.owner.Some? ==> s.owner.value in s.frames
                          && s.active == Some(s.frames[s.owner.value].interrupt))
    && (forall t <- s.frames :: s.owner != Some(t) ==>
          s.frames[t].phase.Final? || s.frames[t].phase.Returned? || s.frames[t].phase.Settled?)
  }

  /** The owner is still ahead of its late-arrival check. */
  predicate Live(s: Session) {
    s.owner.Some? ==> s.owner.value in s.frames && Unfinished(s.frames[s.owner.value])
  }

  /** A filled slot has an owner that will look at it. */
  predicate SlotOwned(s: Session) {
    s.slot.Some? ==> s.owner.Some?
  }

  lemma SpawnDrainOwned(s: Session, t: nat, id: nat, spawned: bool)
    requires Owned(s) && t in s.frames && s.slot.Some? && id !in s.frames
    requires s.owner.None? || s.owner == Some(t)
    requires s.owner.Some? || !spawned
    requires forall u <- s.frames :: u != t ==>
               s.frames[u].phase.Final? || s.frames[u].phase.Returned? || s.frames[u].phase.Settled?
    ensures var s' := SpawnDrain(s, t, id, spawned);
            Owned(SetPhase(s', t, Final)) && Owned(SetPhase(s', t, Returned))
  {
  }

  lemma OwnedDrains(s: Session, t: nat, id: nat, spawned: bool)
    requires Owned(s) && SlotOwned(s) && id !in s.frames
    ensures SuspendedAt(s, t, BeforeDrain) ==> Owned(DrainCheck(s, t, id, spawned)) && SlotOwned(DrainCheck(s, t, id, spawned))
    ensures SuspendedAt(s, t, Final) ==> Owned(FinalCheck(s, t, id, spawned)) && SlotOwned(FinalCheck(s, t, id, spawned))
  {
    if s.slot.Some? && s.owner == Some(t) {
      SpawnDrainOwned(s, t, id, spawned);
    }
  }

  lemma OwnedStep(cfg: Config, s: Session, l: Label)
    requires Owned(s) && SlotOwned(s) && Enabled(s, l)
    requires l.TimerFires? ==> s.owner.Some?
    ensures Owned(Step(cfg, s, l)) && SlotOwned(Step(cfg, s, l))
  {
    match l
    case Drain(t, id, spawned) => OwnedDrains(s, t, id, spawned);
    case Finish(t, id, spawned) => OwnedDrains(s, t, id, spawned);
    case Arrive(e, lane, now, id, spawned) => OwnedArrival(cfg, s, l);
    case TimerFires =>
    case RaiseInterrupt =>
    case _ => OwnedFrame(cfg, s, l);
  }

  lemma OwnedArrival(cfg: Config, s: Session, l: Label)
    requires Owned(s) && SlotOwned(s) && l.Arrive? && Enabled(s, l)
    ensures Owned(Step(cfg, s, l)) && SlotOwned(Step(cfg, s, l))
  {
    var healed := Heal(s);
    assert Owned(healed) && SlotOwned(healed);
  }

  lemma OwnedFrame(cfg: Config, s: Session, l: Label)
    requires Owned(s) && SlotOwned(s) && Enabled(s, l)
    requires l.Start? || l.HandlerDone? || l.ReplyDone? || l.NoticeDone? || l.Settle?
    ensures Owned(Step(cfg, s, l)) && SlotOwned(Step(cfg, s, l))
  {
  }

  /** Only a failed spawn at the late-arrival check leaves a finished owner behind. */
  lemma LiveStep(cfg: Config, s: Session, l: Label)
    requires Owned(s) && SlotOwned(s) && Live(s) && Enabled(s, l)
    requires l.Finish? ==> l.spawned
    ensures Live(Step(cfg, s, l))
  {
  }
}
