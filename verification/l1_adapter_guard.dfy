/**
 The adapter guard itself (src/pi_gateway/guards/l1-adapter-guard.ts): four maps from
 session keys, mutated in place, beside the frames the task runtime keeps for it. Each
 method runs one stretch between two awaits; its contract says which function of
 SessionProtocol the key goes through and that no other key changes.
*/
module AdapterGuard {
  import opened Text
  import opened GuardEvents
  import opened SessionProtocol

  type Key = string

  ghost predicate SameOff<T>(k: Key, m: map<Key, T>, m': map<Key, T>) {
    && (forall k' :: k' != k ==> (k' in m <==> k' in m'))
    && (forall k' <- m :: k' != k ==> m[k'] == m'[k'])
  }

  class AdapterSessionGuard {
    const config: Config

    var activeSessions: map<Key, nat>
    var pendingMessages: map<Key, Event>
    var sessionTasks: map<Key, nat>
    var textDebounce: map<Key, Buffer>

    /** The runtime: suspended frames, raised interrupt flags and the next fresh identity. */
    var frames: map<Key, map<nat, Frame>>
    var raised: map<Key, set<nat>>
    var nextId: nat

    /** History, read by proofs only. */
    var logs: map<Key, Log>

    ghost predicate Valid()
      reads this
    {
      forall k <- frames :: forall t <- frames[k] :: t < nextId
    }

    function Frames(k: Key): map<nat, Frame>
      reads this
    {
      if k in frames then frames[k] else map[]
    }

    function Raised(k: Key): set<nat>
      reads this
    {
      if k in raised then raised[k] else {}
    }

    function LogOf(k: Key): Log
      reads this
    {
      if k in logs then logs[k] else INITIAL.log
    }

    /** Everything the guard holds for one key. */
    ghost function SessionOf(k: Key): Session
      reads this
    {
      Session(if k in activeSessions then Some(activeSessions[k]) else None,
              if k in pendingMessages then Some(pendingMessages[k]) else None,
              if k in sessionTasks then Some(sessionTasks[k]) else None,
              if k in textDebounce then Some(textDebounce[k]) else None,
              Frames(k), Raised(k), LogOf(k))
    }

    /** Sessions are independent: nothing is touched outside key `k`. */
    twostate predicate OnlyKey(k: Key)
      reads this
    {
      && SameOff(k, old(activeSessions), activeSessions) && SameOff(k, old(pendingMessages), pendingMessages)
      && SameOff(k, old(sessionTasks), sessionTasks) && SameOff(k, old(textDebounce), textDebounce)
      && SameOff(k, old(frames), frames) && SameOff(k, old(raised), raised) && SameOff(k, old(logs), logs)
    }

    /** Seen from any other key, the guard is as it was. */
    twostate lemma OtherKeysUntouched(k: Key, k': Key)
      requires OnlyKey(k) && k' != k
      ensures SessionOf(k') == old(SessionOf(k'))
    {
    }

    constructor (config: Config)
      ensures Valid() && this.config == config
      ensures forall k :: SessionOf(k) == INITIAL
    {
      this.config := config;
      activeSessions, pendingMessages, sessionTasks, textDebounce := map[], map[], map[], map[];
      frames, raised, logs := map[], map[], map[];
      nextId := 0;
    }

    // ----- helpers ----------------------------------------------------------------

    method SetPhaseOf(k: Key, t: nat, p: Phase)
      requires Valid() && t in Frames(k)
      modifies this`frames
      ensures Valid() && SessionOf(k) == SetPhase(old(SessionOf(k)), t, p) && OnlyKey(k)
    {
      frames := frames[k := frames[k][t := frames[k][t].(phase := p)]];
    }

    /** The slot update itself: merge into the event already there, or install. */
    method MergeSlot(k: Key, event: Event, mergeText: bool)
      modifies this`pendingMessages
      ensures pendingMessages == old(pendingMessages)[k := MergedSlot(old(SessionOf(k)).slot, event, mergeText)]
    {
      if k in pendingMessages {
        pendingMessages := pendingMessages[k := Merge(pendingMessages[k], event, mergeText)];
      } else {
        pendingMessages := pendingMessages[k := event];
      }
    }

    method MergePendingEvent(k: Key, event: Event)
      requires Valid()
      modifies this`pendingMessages, this`logs
      ensures Valid() && SessionOf(k) == MergeIntoSlot(old(SessionOf(k)), event) && OnlyKey(k)
    {
      var log := LogOf(k);
      MergeSlot(k, event, event.kind.TextMessage?);
      logs := logs[k := log.(arrived := log.arrived + [event], slotGroup := log.slotGroup + [event])];
    }

    // ----- ingress ----------------------------------------------------------------

    method HealStaleSessionLock(k: Key)
      requires Valid()
      modifies this`activeSessions, this`pendingMessages, this`sessionTasks, this`textDebounce, this`logs
      ensures Valid() && SessionOf(k) == Heal(old(SessionOf(k))) && OnlyKey(k)
    {
      if k !in activeSessions || k !in sessionTasks { return; }
      var task := sessionTasks[k];
      if task !in Frames(k) || !Frames(k)[task].phase.Settled? { return; }
      activeSessions := activeSessions - {k};
      pendingMessages := pendingMessages - {k};
      sessionTasks := sessionTasks - {k};
      textDebounce := textDebounce - {k};
      var log := LogOf(k);
      logs := logs[k := log.(slotGroup := [], bufferGroup := [],
                             dropped := log.dropped + log.slotGroup + log.bufferGroup)];
    }

    /** Installs the guard before spawning, and rolls it back when the spawner fails. */
    method StartSessionProcessing(k: Key, event: Event, spawned: bool) returns (id: nat)
      requires Valid()
      modifies this`activeSessions, this`sessionTasks, this`frames, this`nextId, this`logs
      ensures Valid() && OnlyKey(k) && id !in old(Frames(k))
      ensures SessionOf(k) == StartProcessing(old(SessionOf(k)), event, id, spawned)
    {
      var log := LogOf(k);
      id := nextId;
      activeSessions := activeSessions[k := id];
      if !spawned {
        nextId := nextId + 1;
        sessionTasks, activeSessions := sessionTasks - {k}, activeSessions - {k};
        logs := logs[k := log.(dropped := log.dropped + [event])];
        return;
      }
      Register(k, Frame(event, id, Ready, [event]));
      logs := logs[k := log.(arrived := log.arrived + [event])];
    }

    /** The flush behind every drain and timer; true when the buffer moved into the slot. */
    method FlushTextDebounceNow(k: Key) returns (flushed: bool)
      requires Valid()
      modifies this`pendingMessages, this`textDebounce, this`logs
      ensures Valid() && SessionOf(k) == Flush(old(SessionOf(k))) && OnlyKey(k)
      ensures flushed <==> k in old(textDebounce) && k !in textDebounce
    {
      if k !in textDebounce { return false; }
      var state := textDebounce[k].(due := None);
      textDebounce := textDebounce[k := state];
      if k in pendingMessages && !CanMerge(pendingMessages[k], state.event) { return false; }
      textDebounce := textDebounce - {k};
      MergeSlot(k, state.event, true);
      var log := LogOf(k);
      logs := logs[k := log.(slotGroup := log.slotGroup + log.bufferGroup, bufferGroup := [])];
      return true;
    }

    method BufferText(k: Key, event: Event, now: int)
      requires Valid() && event.kind.TextMessage?
      modifies this`pendingMessages, this`textDebounce, this`logs
      ensures Valid() && SessionOf(k) == QueueTextDebounce(old(SessionOf(k)), event, config, now) && OnlyKey(k)
    {
      if k in textDebounce && !CanMerge(textDebounce[k].event, event) {
        var _ := FlushTextDebounceNow(k);
        if k in textDebounce && !CanMerge(textDebounce[k].event, event) {
          if k in pendingMessages && CanMerge(pendingMessages[k], event) {
            MergePendingEvent(k, event);
          } else {
            logs := logs[k := LogOf(k).(dropped := LogOf(k).dropped + [event])];
          }
          return;
        }
      }
      ArmBuffer(k, if k in textDebounce then Extend(textDebounce[k], event, now) else Buffer(event, None, now, now),
                event, now);
    }

    /** Stores the buffer with its timer re-armed, the previous timer being cancelled. */
    method ArmBuffer(k: Key, state: Buffer, event: Event, now: int)
      requires Valid()
      modifies this`textDebounce, this`logs
      ensures Valid() && OnlyKey(k)
      ensures var log := old(LogOf(k));
              SessionOf(k) == old(SessionOf(k)).(
                buffer := Some(Arm(config, state, now)),
                log := log.(arrived := log.arrived + [event], bufferGroup := log.bufferGroup + [event]))
    {
      var log := LogOf(k);
      textDebounce := textDebounce[k := Arm(config, state, now)];
      logs := logs[k := log.(arrived := log.arrived + [event], bufferGroup := log.bufferGroup + [event])];
    }

    method HandleMessageFor(k: Key, event: Event, lane: Lane, now: int, spawned: bool) returns (ghost id: nat)
      requires Valid()
      modifies this
      ensures Valid() && OnlyKey(k) && id !in old(Frames(k))
      ensures SessionOf(k) == HandleMessage(old(SessionOf(k)), event, lane, config, now, id, spawned)
    {
      id := nextId;
      if k in activeSessions {
        HealStaleSessionLock(k);
      }
      if k in activeSessions {
        if lane.Inline? { return; }
        if event.kind.Photo? {
          MergePendingEvent(k, event);
        } else if Candidate(config, event) {
          BufferText(k, event, now);
        } else {
          MergePendingEvent(k, event);
        }
        return;
      }
      id := StartSessionProcessing(k, event, spawned);
    }

    // ----- the turn frame ---------------------------------------------------------

    method EnterFrame(k: Key, t: nat)
      requires Valid() && t in Frames(k)
      modifies this`activeSessions, this`frames, this`logs
      ensures Valid() && SessionOf(k) == FrameStart(old(SessionOf(k)), t) && OnlyKey(k)
    {
      var f := frames[k][t];
      var interrupt: nat := if k in activeSessions then activeSessions[k] else f.interrupt;
      activeSessions := activeSessions[k := interrupt];
      var turns: map<nat, Frame> := Frames(k)[t := f.(interrupt := interrupt, phase := Handling)];
      frames := frames[k := turns];
      var log := LogOf(k);
      logs := logs[k := log.(handedGroups := log.handedGroups + [f.group], handed := log.handed + [f.event])];
    }

    method AfterHandler(k: Key, t: nat, outcome: Outcome)
      requires Valid() && t in Frames(k)
      modifies this`pendingMessages, this`textDebounce, this`frames, this`logs
      ensures Valid() && SessionOf(k) == HandlerSettles(old(SessionOf(k)), t, outcome) && OnlyKey(k)
    {
      if outcome.Fails? {
        SetPhaseOf(k, t, ErrorNotice(true));
      } else if outcome.Cancels? {
        SetPhaseOf(k, t, CancelNotice);
      } else if outcome.Reply? && !(frames[k][t].interrupt in Raised(k) && k in pendingMessages) {
        SetPhaseOf(k, t, Replying);
      } else {
        var _ := FlushTextDebounceNow(k);
        SetPhaseOf(k, t, BeforeDrain);
      }
    }

    method AfterReply(k: Key, t: nat, sent: bool)
      requires Valid() && t in Frames(k)
      modifies this`pendingMessages, this`textDebounce, this`frames, this`logs
      ensures Valid() && SessionOf(k) == ReplySettles(old(SessionOf(k)), t, sent) && OnlyKey(k)
    {
      if sent {
        var _ := FlushTextDebounceNow(k);
        SetPhaseOf(k, t, BeforeDrain);
      } else {
        SetPhaseOf(k, t, ErrorNotice(false));
      }
    }

    method AfterNotice(k: Key, t: nat)
      requires Valid() && t in Frames(k)
      modifies this`pendingMessages, this`textDebounce, this`frames, this`logs
      ensures Valid() && SessionOf(k) == NoticeSettles(old(SessionOf(k)), t) && OnlyKey(k)
    {
      var inner := frames[k][t].phase == ErrorNotice(true);
      var _ := FlushTextDebounceNow(k);
      SetPhaseOf(k, t, if inner then BeforeDrain else Final);
    }

    /** Pops the slot and clears the interrupt flag. */
    method PopSlot(k: Key, interrupt: nat, lost: bool) returns (event: Event, group: seq<Event>)
      requires Valid() && k in pendingMessages
      modifies this`pendingMessages, this`raised, this`logs
      ensures Valid() && OnlyKey(k) && event == old(pendingMessages[k]) && group == old(LogOf(k)).slotGroup
      ensures var s := old(SessionOf(k));
              SessionOf(k) == s.(slot := None, raised := s.raised - {interrupt},
                                 log := s.log.(slotGroup := [],
                                               dropped := s.log.dropped + if lost then s.log.slotGroup else []))
    {
      event := pendingMessages[k];
      var log := LogOf(k);
      group := log.slotGroup;
      pendingMessages, raised := pendingMessages - {k}, raised[k := Raised(k) - {interrupt}];
      logs := logs[k := log.(slotGroup := [], dropped := log.dropped + if lost then group else [])];
    }

    /** The spawner answered with a task: it owns the session from now on. */
    method Register(k: Key, frame: Frame)
      requires Valid()
      modifies this`sessionTasks, this`frames, this`nextId
      ensures Valid() && nextId == old(nextId) + 1
      ensures sessionTasks == old(sessionTasks)[k := old(nextId)]
      ensures frames == old(frames)[k := old(Frames(k))[old(nextId) := frame]]
    {
      frames, sessionTasks := frames[k := Frames(k)[nextId := frame]], sessionTasks[k := nextId];
      nextId := nextId + 1;
    }

    method TrySpawnDrain(k: Key, t: nat, spawned: bool) returns (ghost id: nat)
      requires Valid() && t in Frames(k) && k in pendingMessages
      modifies this`pendingMessages, this`sessionTasks, this`frames, this`raised, this`nextId, this`logs
      ensures Valid() && OnlyKey(k) && id !in old(Frames(k))
      ensures SessionOf(k) == SpawnDrain(old(SessionOf(k)), t, id, spawned)
    {
      id := nextId;
      var event, group := PopSlot(k, frames[k][t].interrupt, !spawned);
      if spawned {
        Register(k, Frame(event, if k in activeSessions then activeSessions[k] else nextId, Ready, group));
      }
    }

    method InBandDrain(k: Key, t: nat, spawned: bool) returns (ghost id: nat)
      requires Valid() && t in Frames(k)
      modifies this
      ensures Valid() && OnlyKey(k) && id !in old(Frames(k))
      ensures SessionOf(k) == DrainCheck(old(SessionOf(k)), t, id, spawned)
    {
      id := nextId;
      if k in pendingMessages {
        id := TrySpawnDrain(k, t, spawned);
      }
      var _ := FlushTextDebounceNow(k);
      SetPhaseOf(k, t, Final);
    }

    method LateArrivalCheck(k: Key, t: nat, spawned: bool) returns (ghost id: nat)
      requires Valid() && t in Frames(k)
      modifies this
      ensures Valid() && OnlyKey(k) && id !in old(Frames(k))
      ensures SessionOf(k) == FinalCheck(old(SessionOf(k)), t, id, spawned)
    {
      id := nextId;
      if k in pendingMessages {
        if !(k in sessionTasks && sessionTasks[k] != t) {
          id := TrySpawnDrain(k, t, spawned);
        }
      } else if k in sessionTasks && sessionTasks[k] == t {
        // Identity-checked release, then conditional delete.
        if k in activeSessions && activeSessions[k] == frames[k][t].interrupt {
          activeSessions := activeSessions - {k};
          sessionTasks := sessionTasks - {k};
        }
      }
      SetPhaseOf(k, t, Returned);
    }
  }
}
