/**
 The gate's waits as the source writes them (src/pi_embedded/approvals/gate.ts): each method runs
 one stretch between two awaits over the shared entries and queue of a session, and its contract
 says which step of ApprovalGate the session takes.
*/
module ApprovalWaits {
  import opened ApprovalGate
  import opened ApprovalQueue
  import opened Sequences
  import opened Text

  class GatewayApprovals {
    var entries: seq<Entry>
    var queue: seq<nat>
    var waiters: seq<Waiter>
    ghost var answers: seq<(nat, Choice)>
    ghost var departed: seq<nat>

    constructor ()
      ensures View() == START
    {
      entries, queue, waiters := [], [], [];
      answers, departed := [], [];
    }

    ghost function View(): State
      reads this
    {
      State(entries, queue, waiters, answers, departed)
    }

    method FindIdenticalPending(command: string, keys: seq<string>) returns (leader: Option<nat>)
      requires forall i | 0 <= i < |queue| :: queue[i] < |entries|
      ensures leader == FindIdentical(entries, queue, command, keys)
    {
      for i := 0 to |queue|
        invariant FindIdentical(entries, queue, command, keys) == FindIdentical(entries, queue[i..], command, keys)
      {
        assert queue[i..][1..] == queue[i + 1..];
        if Identical(entries[queue[i]].data, command, keys) {
          return Some(queue[i]);
        }
      }
      leader := None;
    }

    method SetPhase(w: nat, phase: Phase)
      requires w < |waiters|
      modifies `waiters
      ensures View() == WithPhase(old(View()), w, phase)
    {
      waiters := waiters[w := waiters[w].(phase := phase)];
    }

    method Drop(e: nat)
      modifies `queue, `departed
      ensures View() == DropEntry(old(View()), e)
    {
      var index := 0;
      while index < |queue| && queue[index] != e
        invariant 0 <= index <= |queue| && e !in queue[..index]
      {
        index := index + 1;
      }
      WithoutAt(queue, e, index);
      if index < |queue| {
        queue := queue[..index] + queue[index + 1..];
        departed := departed + [e];
      } else {
        assert queue[..index] == queue;
      }
    }

    method Prompt(w: nat, requestId: string)
      requires w < |waiters|
      modifies `entries, `queue, `waiters
      ensures View() == Enqueue(old(View()), w, requestId)
    {
      var waiter := waiters[w];
      queue := queue + [|entries|];
      SetPhase(w, Prompting(|entries|));
      entries := entries + [Entry(Request(waiter.command, waiter.patternKeys, requestId), w, None, false)];
    }

    /** Follow an identical pending approval, or prompt afresh. */
    method AwaitGatewayDecision(command: string, keys: seq<string>, candidateId: string, requestId: string)
      returns (w: nat)
      requires Enabled(View(), Ask(command, keys, candidateId, requestId))
      modifies `entries, `queue, `waiters
      ensures View() == DoAsk(old(View()), Ask(command, keys, candidateId, requestId)) && w == |old(waiters)|
    {
      w := |waiters|;
      waiters := waiters + [Waiter(command, keys, Reprompting)];
      var leader := FindIdenticalPending(command, keys);
      if leader.Some? && entries[leader.value].data.requestId != candidateId {
        SetPhase(w, Announcing(leader.value));
      } else {
        Prompt(w, requestId);
      }
    }

    /** The top of the follower's loop: interrupt first, then the deadline, else another slice. */
    method FollowLoopTop(w: nat, leader: nat, poll: Poll)
      requires w < |waiters|
      modifies `waiters
      ensures View() == FollowTop(old(View()), w, leader, poll)
    {
      var resolved, choice := false, None;
      if poll.interrupted {
        choice, resolved := Some(Deny), true;
      } else if !poll.expired {
        SetPhase(w, Following(leader));
        return;
      }
      SetPhase(w, Reporting(Decision(resolved, choice, true, false, leader)));
    }

    /** The top of the owner's loop; an interrupt settles the entry as denied. */
    method WaitLoopTop(w: nat, e: nat, poll: Poll)
      requires w < |waiters| && e < |entries|
      modifies `entries, `queue, `waiters, `departed
      ensures View() == WaitTop(old(View()), w, e, poll)
    {
      if poll.interrupted {
        entries := entries[e := entries[e].(result := Some(Deny), done := true)];
        Leave(w, e, true);
      } else if poll.expired {
        Leave(w, e, false);
      } else {
        SetPhase(w, Waiting(e));
      }
    }

    /** After the loop: the entry leaves the queue and its result is read. */
    method Leave(w: nat, e: nat, resolved: bool)
      requires w < |waiters| && e < |entries|
      modifies `queue, `waiters, `departed
      ensures View() == Decide(old(View()), w, e, resolved)
    {
      Drop(e);
      SetPhase(w, Reporting(Decision(resolved, entries[e].result, false, false, e)));
    }

    method AfterAnnouncement(w: nat, poll: Poll)
      requires Enabled(View(), Announced(w, poll))
      modifies `waiters
      ensures View() == Step(old(View()), Announced(w, poll))
    {
      FollowLoopTop(w, waiters[w].phase.leader, poll);
    }

    method AfterOnce(w: nat, requestId: string)
      requires Enabled(View(), Reprompt(w, requestId))
      modifies `entries, `queue, `waiters
      ensures View() == Step(old(View()), Reprompt(w, requestId))
    {
      Prompt(w, requestId);
    }

    method AfterPrompt(w: nat, delivered: bool, poll: Poll)
      requires Enabled(View(), Prompted(w, delivered, poll))
      modifies `entries, `queue, `waiters, `departed
      ensures View() == Step(old(View()), Prompted(w, delivered, poll))
    {
      var entry := waiters[w].phase.entry;
      if !delivered {
        Drop(entry);
        SetPhase(w, Reporting(Decision(false, None, false, true, entry)));
        return;
      }
      WaitLoopTop(w, entry, poll);
    }

    /** A wait slice ends: the entry was settled, or the slice ran out. */
    method AfterSlice(w: nat, settled: bool, poll: Poll)
      requires Enabled(View(), Woken(w, settled, poll))
      modifies `entries, `queue, `waiters, `departed
      ensures View() == Step(old(View()), Woken(w, settled, poll))
    {
      match waiters[w].phase
      case Following(leader) =>
        if !settled {
          FollowLoopTop(w, leader, poll);
        } else {
          var choice := entries[leader].result;
          if choice == Some(Once) {
            SetPhase(w, Reprompting);
          } else {
            SetPhase(w, Reporting(Decision(choice.Some?, choice, true, false, leader)));
          }
        }
      case Waiting(entry) =>
        if settled {
          Leave(w, entry, true);
        } else {
          WaitLoopTop(w, entry, poll);
        }
      case _ =>
        assert false;
    }

    method AfterReport(w: nat) returns (decision: Decision)
      requires Enabled(View(), Reported(w))
      modifies `waiters
      ensures View() == Step(old(View()), Reported(w))
      ensures waiters[w].phase == Returned(decision)
    {
      decision := waiters[w].phase.decision;
      SetPhase(w, Returned(decision));
    }
  }
}
